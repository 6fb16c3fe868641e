/**
  The authentication service's pure parts: the fixed table of demo
  credentials both login paths check, the mock login that looks the user
  up in the demo user list, the translation of role names to and from the
  database's spelling, and the constant module catalogue. The demo user
  list, the UUID check and the database are parameters or left out.
 */
module Auth {
  import opened Common
  import opened TicketTypes

  // ---------------------------------------------------------------------
  // Credentials
  // ---------------------------------------------------------------------

  /** The ten accepted (username-or-email, password) pairs, in the order the disjunction lists them. */
  const CredentialTable: seq<(string, string)> := [
    ("admin", "admin"),
    ("manager", "manager"),
    ("user", "user"),
    ("jane.doe", "password"),
    ("hr.manager", "hrpass"),
    ("admin@company.com", "admin"),
    ("manager@company.com", "manager"),
    ("user@company.com", "user"),
    ("jane@company.com", "password"),
    ("hrmanager@company.com", "hrpass")
  ]

  /** `validCredentials`: the pair is one of the table's. */
  predicate ValidCredentials(login: string, password: string)
  {
    (login, password) in CredentialTable
  }

  function Logins(): seq<string>
  {
    seq(|CredentialTable|, i requires 0 <= i < |CredentialTable| => CredentialTable[i].0)
  }

  /** No login appears twice in the table. */
  lemma LoginsDistinct()
    ensures |Logins()| == 10 && NoDuplicates(Logins())
  {
    var l := Logins();
    assert l == ["admin", "manager", "user", "jane.doe", "hr.manager", "admin@company.com",
                 "manager@company.com", "user@company.com", "jane@company.com", "hrmanager@company.com"];
  }

  /**
    Each login has exactly one password, and each username shares its
    password with the matching e-mail address.
   */
  lemma PasswordDetermined(login: string, p: string, p': string)
    requires ValidCredentials(login, p) && ValidCredentials(login, p')
    ensures p == p'
  {
    var i :| 0 <= i < |CredentialTable| && CredentialTable[i] == (login, p);
    var j :| 0 <= j < |CredentialTable| && CredentialTable[j] == (login, p');
    LoginsDistinct();
    assert Logins()[i] == login == Logins()[j];
  }

  /** A user found by username or e-mail (`u.username === x || u.email === x`). */
  predicate MatchesLogin(u: User, login: string)
  {
    u.username == login || u.email == login
  }

  /** `mockUsers.find(...)` by username or e-mail. */
  function FindByLogin(users: seq<User>, login: string): (r: Option<User>)
    ensures r.Some? ==> r.value in users && MatchesLogin(r.value, login)
    ensures r.None? <==> forall u :: u in users ==> !MatchesLogin(u, login)
  {
    if users == [] then None
    else if MatchesLogin(users[0], login) then Some(users[0])
    else FindByLogin(users[1..], login)
  }

  /** The lookup returns the first user the login matches, whatever follows. */
  lemma {:induction false} FindByLoginFirst(pre: seq<User>, u: User, post: seq<User>, login: string)
    requires MatchesLogin(u, login) && forall x :: x in pre ==> !MatchesLogin(x, login)
    ensures FindByLogin(pre + [u] + post, login) == Some(u)
  {
    if pre != [] {
      assert (pre + [u] + post)[1..] == pre[1..] + [u] + post;
      FindByLoginFirst(pre[1..], u, post, login);
    }
  }

  /**
    `mockLogin`: null unless the pair is in the table; otherwise the first
    demo user matching the login, refused when its id is not a valid UUID,
    returned with `lastLogin` set to `now`.
   */
  function MockLogin(login: string, password: string, users: seq<User>, validUuid: string -> bool, now: int)
    : (r: Option<User>)
    ensures !ValidCredentials(login, password) ==> r.None?
    ensures r.Some? ==> exists u :: u in users && MatchesLogin(u, login) && validUuid(u.id)
                                    && r.value == u.(lastLogin := Some(now))
    ensures (forall u :: u in users ==> !MatchesLogin(u, login)) ==> r.None?
    ensures (ValidCredentials(login, password) && (exists u :: u in users && MatchesLogin(u, login))
             && (forall u :: u in users && MatchesLogin(u, login) ==> validUuid(u.id))) ==> r.Some?
  {
    if !ValidCredentials(login, password) then None
    else
      match FindByLogin(users, login)
      case None => None
      case Some(u) => if validUuid(u.id) then Some(u.(lastLogin := Some(now))) else None
  }

  /**
    The database branch of `login`: the same table and lookup, no UUID
    check; the user row it then writes to the database is left out.
   */
  function DatabaseLogin(login: string, password: string, users: seq<User>, now: int): (r: Option<User>)
    ensures r.Some? <==> ValidCredentials(login, password) && exists u :: u in users && MatchesLogin(u, login)
    ensures r.Some? ==> exists u :: u in users && MatchesLogin(u, login) && r.value == u.(lastLogin := Some(now))
  {
    if !ValidCredentials(login, password) then None
    else
      match FindByLogin(users, login)
      case None => None
      case Some(u) => Some(u.(lastLogin := Some(now)))
  }

  /**
    The mock path returns the first demo user the login matches, and only
    when that user's id is a valid UUID: a later match with a valid id does
    not rescue an invalid first one.
   */
  lemma MockLoginFirst(pre: seq<User>, u: User, post: seq<User>, login: string, password: string,
                       validUuid: string -> bool, now: int)
    requires ValidCredentials(login, password)
    requires MatchesLogin(u, login) && forall x :: x in pre ==> !MatchesLogin(x, login)
    ensures MockLogin(login, password, pre + [u] + post, validUuid, now)
            == if validUuid(u.id) then Some(u.(lastLogin := Some(now))) else None
  {
    FindByLoginFirst(pre, u, post, login);
  }

  /** The database path returns the first demo user the login matches. */
  lemma DatabaseLoginFirst(pre: seq<User>, u: User, post: seq<User>, login: string, password: string, now: int)
    requires ValidCredentials(login, password)
    requires MatchesLogin(u, login) && forall x :: x in pre ==> !MatchesLogin(x, login)
    ensures DatabaseLogin(login, password, pre + [u] + post, now) == Some(u.(lastLogin := Some(now)))
  {
    FindByLoginFirst(pre, u, post, login);
  }

  /** `login`: the mock path in mock mode or when the database is unavailable. */
  function Login(mockMode: bool, databaseAvailable: bool, login: string, password: string,
                 users: seq<User>, validUuid: string -> bool, now: int): Option<User>
  {
    if mockMode || !databaseAvailable then MockLogin(login, password, users, validUuid, now)
    else DatabaseLogin(login, password, users, now)
  }

  /**
    Both paths check the same table: whichever runs, a login succeeds only
    with a listed pair, and when every demo id is a valid UUID the two
    paths give the same user.
   */
  lemma LoginPathsAgree(mockMode: bool, databaseAvailable: bool, login: string, password: string,
                        users: seq<User>, validUuid: string -> bool, now: int)
    ensures Login(mockMode, databaseAvailable, login, password, users, validUuid, now).Some?
            ==> ValidCredentials(login, password)
    ensures (forall u :: u in users ==> validUuid(u.id)) ==>
            Login(mockMode, databaseAvailable, login, password, users, validUuid, now)
            == MockLogin(login, password, users, validUuid, now)
            == DatabaseLogin(login, password, users, now)
  {
  }

  /** The password only gates: two accepted passwords for a login yield the same user. */
  lemma LoginIgnoresWhichPassword(login: string, p: string, p': string, users: seq<User>,
                                  validUuid: string -> bool, now: int)
    requires MockLogin(login, p, users, validUuid, now).Some?
    requires MockLogin(login, p', users, validUuid, now).Some?
    ensures p == p'
  {
    PasswordDetermined(login, p, p');
  }

  // ---------------------------------------------------------------------
  // Role names in the database
  // ---------------------------------------------------------------------

  /** The `roleMapping` record; its `Employee` key is spelled unlike the role `EMPLOYEE`. */
  function RoleMapping(key: string): Option<string>
  {
    if key == "DO" then Some("dept_officer")
    else if key == "EO" then Some("eo")
    else if key == "Employee" then Some("employee")
    else None
  }

  /** `roleMapping[role] || role.toLowerCase()` (every mapped value is non-empty, hence truthy). */
  function RoleToDb(r: Role): string
  {
    RoleMapping(RoleName(r)).GetOr(ToLower(RoleName(r)))
  }

  /** The database names of the three roles, EMPLOYEE reaching its name through the lower-casing fallback. */
  lemma RoleToDbValues()
    ensures RoleToDb(DO) == "dept_officer" && RoleToDb(EO) == "eo" && RoleToDb(EMPLOYEE) == "employee"
    ensures RoleMapping(RoleName(EMPLOYEE)).None?
  {
    assert ToLower("EMPLOYEE") == "employee";
  }

  /** Distinct roles get distinct database names. */
  lemma RoleToDbInjective(a: Role, b: Role)
    ensures RoleToDb(a) == RoleToDb(b) ==> a == b
  {
    RoleToDbValues();
  }

  /** The role a string names, when it names one. */
  function RoleOfName(s: string): (r: Option<Role>)
    ensures r.Some? ==> RoleName(r.value) == s
    ensures r.None? <==> forall x :: RoleName(x) != s
  {
    if s == "EMPLOYEE" then Some(EMPLOYEE)
    else if s == "DO" then Some(DO)
    else if s == "EO" then Some(EO)
    else None
  }

  /** The reverse mapping in `getAllUsers`, as written. */
  function RoleFromDb(s: string): string
  {
    if s == "dept_officer" then "DO"
    else if s == "eo" then "EO"
    else if s == "employee" then "Employee"
    else s
  }

  /** DO and EO survive a trip through the database. */
  lemma OfficersRoundTrip(r: Role)
    requires r != EMPLOYEE
    ensures RoleFromDb(RoleToDb(r)) == RoleName(r)
  {
    RoleToDbValues();
  }

  /** EMPLOYEE comes back as "Employee", which is not a role at all. */
  lemma EmployeeDoesNotRoundTrip()
    ensures RoleFromDb(RoleToDb(EMPLOYEE)) == "Employee"
    ensures RoleOfName(RoleFromDb(RoleToDb(EMPLOYEE))).None?
  {
    RoleToDbValues();
  }

  /** The reverse mapping with `employee` sent back to the role's own name. */
  function RoleFromDbFixed(s: string): string
  {
    if s == "dept_officer" then "DO"
    else if s == "eo" then "EO"
    else if s == "employee" then "EMPLOYEE"
    else s
  }

  /** With the corrected reverse mapping every role round-trips. */
  lemma RoleRoundTrip(r: Role)
    ensures RoleFromDbFixed(RoleToDb(r)) == RoleName(r)
    ensures RoleOfName(RoleFromDbFixed(RoleToDb(r))) == Some(r)
  {
    RoleToDbValues();
  }

  // ---------------------------------------------------------------------
  // Modules
  // ---------------------------------------------------------------------

  /** `Module`; the creation and update stamps are `now`. */
  datatype AppModule = AppModule(
    id: string,
    name: string,
    description: string,
    icon: string,
    color: string,
    schemaId: string,
    categories: seq<string>,
    active: bool,
    createdAt: int,
    updatedAt: int)

  /** The five modules `getAvailableModules` defines, each one active. */
  function MaintenanceModule(now: int): AppModule
  {
    AppModule("550e8400-e29b-41d4-a716-446655440001", "Maintenance Tracker",
      "Track and manage maintenance requests and work orders", "Wrench", "from-blue-500 to-indigo-500",
      "maintenance", ["Electrical", "Plumbing", "HVAC", "General Maintenance", "Equipment Repair"], true, now, now)
  }

  function RtiModule(now: int): AppModule
  {
    AppModule("550e8400-e29b-41d4-a716-446655440002", "RTI Tracker",
      "Right to Information request tracking and management", "FileText", "from-purple-500 to-indigo-500",
      "rti", ["Information Request", "Appeal", "Compliance", "Documentation", "Other"], true, now, now)
  }

  function ComplaintsModule(now: int): AppModule
  {
    AppModule("550e8400-e29b-41d4-a716-446655440003", "Complaints Tracker",
      "Manage customer complaints and resolution workflows", "Users", "from-orange-500 to-red-500",
      "complaints", ["Service Quality", "Staff Behavior", "Product Issues", "Billing", "Other"], true, now, now)
  }

  function GrievancesModule(now: int): AppModule
  {
    AppModule("550e8400-e29b-41d4-a716-446655440004", "Grievances Management",
      "Handle employee grievances and HR processes", "FileText", "from-green-500 to-teal-500",
      "grievances", ["Workplace Issues", "Policy Concerns", "Discrimination", "Safety Issues", "Other"], true, now, now)
  }

  function ProjectExecutionModule(now: int): AppModule
  {
    AppModule("550e8400-e29b-41d4-a716-446655440005", "Project Execution Platform",
      "Track project milestones and deliverables", "Briefcase", "from-indigo-500 to-purple-500",
      "pep", ["Planning", "Execution", "Monitoring", "Resource Management", "Quality Control"], true, now, now)
  }

  /** `mockModules`, in the order the source lists them. */
  function MockModules(now: int): seq<AppModule>
  {
    [MaintenanceModule(now), RtiModule(now), ComplaintsModule(now), GrievancesModule(now), ProjectExecutionModule(now)]
  }

  /** `mockModules.filter(module => module.active !== false)` */
  function AvailableModules(now: int): (r: seq<AppModule>)
    ensures IsSubseq(r, MockModules(now))
    ensures forall m :: m in r ==> m.active
  {
    FilterIsSubseq(MockModules(now), (m: AppModule) => m.active != false);
    Filter(MockModules(now), (m: AppModule) => m.active != false)
  }

  /** Every defined module is active, so all five are returned. */
  lemma AllFiveModulesAvailable(now: int)
    ensures AvailableModules(now) == MockModules(now)
    ensures |AvailableModules(now)| == 5
  {
    var ms := MockModules(now);
    assert forall i :: 0 <= i < |ms| ==> ms[i].active;
    FilterKeepsAll(ms, (m: AppModule) => m.active != false);
  }

  /** The modules carry five categories each and pairwise distinct ids and schemas. */
  lemma ModulesWellFormed(now: int)
    ensures forall m :: m in MockModules(now) ==> |m.categories| == 5
    ensures forall i, j :: 0 <= i < j < |MockModules(now)| ==>
      MockModules(now)[i].id != MockModules(now)[j].id && MockModules(now)[i].schemaId != MockModules(now)[j].schemaId
  {
    var ms := MockModules(now);
    forall i, j | 0 <= i < j < |ms| ensures ms[i].id != ms[j].id && ms[i].schemaId != ms[j].schemaId {
      assert ms[i].id[|ms[i].id| - 1] != ms[j].id[|ms[j].id| - 1];
    }
  }
}
