/** The choice-type examples: sum types with and without payload, their
    renderings, the isX / asX queries, the ifX callbacks that act only on
    their own case, and pattern matching where the login case is tried
    clause by clause, guarded clauses first, and the first clause whose
    guard holds decides the result. */
module ChoiceTypes {
  import opened Basics
  import opened Access

  // ------------------------------------------------------------ UpOrDown

  /** A choice without payload. */
  datatype UpOrDown = Up | Down

  /** toString of a payload-less choice: the case name. */
  function UpOrDownToString(d: UpOrDown): (s: string)
    ensures d.Up? ==> s == "Up"
    ensures d.Down? ==> s == "Down"
  {
    match d
    case Up => "Up"
    case Down => "Down"
  }

  /** The two cases render differently, so the rendering identifies the case. */
  lemma UpOrDownToStringInjective(a: UpOrDown, b: UpOrDown)
    requires UpOrDownToString(a) == UpOrDownToString(b)
    ensures a == b
  {
  }

  // --------------------------------------------------------- LoginStatus

  /** A choice whose Login case carries the user name. */
  datatype LoginStatus = Login(userName: string) | Logout

  /** toString: the case name, followed by the payload in parentheses when
      there is one. */
  function LoginStatusToString(s: LoginStatus): (r: string)
    ensures s.Logout? ==> r == "Logout"
    ensures s.Login? ==> |r| == |s.userName| + 7 && r[..6] == "Login(" && r[6..|r| - 1] == s.userName && r[|r| - 1] == ')'
  {
    match s
    case Login(u) => "Login(" + u + ")"
    case Logout => "Logout"
  }

  /** The rendering loses nothing: equal renderings come from equal statuses. */
  lemma LoginStatusToStringInjective(a: LoginStatus, b: LoginStatus)
    requires LoginStatusToString(a) == LoginStatusToString(b)
    ensures a == b
  {
    var ra := LoginStatusToString(a);
    if a.Login? && b.Login? {
      assert a.userName == ra[6..|ra| - 1] == b.userName;
    }
  }

  /** isLogout(): holds of the Logout case only. */
  function IsLogout(s: LoginStatus): (r: bool)
    ensures r <==> s == Logout
  {
    s.Logout?
  }

  /** isLogin(): holds of the Login cases only, so exactly one of isLogin
      and isLogout holds of every status. */
  function IsLogin(s: LoginStatus): (r: bool)
    ensures r <==> exists u :: s == Login(u)
    ensures r != IsLogout(s)
  {
    s.Login?
  }

  /** asLogin(): the status itself when it is a Login, otherwise empty. */
  function AsLogin(s: LoginStatus): (r: Option<LoginStatus>)
    ensures r.Some? <==> IsLogin(s)
    ensures r.Some? ==> r.value == s
  {
    if s.Login? then Some(s) else None
  }

  /** asLogin().map(String::valueOf).orElse(fallback): the rendering of a
      Login, the fallback for anything else. */
  lemma AsLoginRendering(s: LoginStatus, fallback: string)
    ensures s.Login? ==> OrElse(MapOption(AsLogin(s), LoginStatusToString), fallback) == LoginStatusToString(s)
    ensures s.Logout? ==> OrElse(MapOption(AsLogin(s), LoginStatusToString), fallback) == fallback
  {
  }

  // ------------------------------------------------------------- ifLogin

  /** The AtomicReference<String> the callbacks write to; None is the
      reference's initial null. */
  class OutputRef {
    var value: Option<string>

    constructor ()
      ensures value == None
    {
      value := None;
    }
  }

  /** ifLogin(action): runs the action on a Login only, and returns the
      status so that calls chain. The action sets the output to
      setTo(login's userName). */
  method IfLogin(s: LoginStatus, output: OutputRef, setTo: string -> string) returns (r: LoginStatus)
    modifies output
    ensures r == s
    ensures s.Login? ==> output.value == Some(setTo(s.userName))
    ensures s.Logout? ==> output.value == old(output.value)
  {
    if s.Login? {
      output.value := Some(setTo(s.userName));
    }
    r := s;
  }

  /** ifLogout(action): runs the action on Logout only, and returns the
      status. The action sets the output to v. */
  method IfLogout(s: LoginStatus, output: OutputRef, v: string) returns (r: LoginStatus)
    modifies output
    ensures r == s
    ensures s.Logout? ==> output.value == Some(v)
    ensures s.Login? ==> output.value == old(output.value)
  {
    if s.Logout? {
      output.value := Some(v);
    }
    r := s;
  }

  /** example05_ifXXX: only the Login callback runs for Login("root"). */
  method IfXExample() returns (r: Option<string>)
    ensures r == Some("User: root")
  {
    var output := new OutputRef();
    var status := Login("root");
    var s1 := IfLogin(status, output, u => "User: " + u);
    var s2 := IfLogout(s1, output, "User: guess");
    r := output.value;
    assert "User: " + "root" == "User: root";
  }

  // ---------------------------------------------------- pattern matching

  /** One guarded login clause of a match: when guard holds of the login's
      userName, the match yields result of that userName. */
  datatype Clause = Clause(guard: string -> bool, result: string -> string)

  /** The position of the first clause whose guard holds, if any. */
  function FirstMatch(clauses: seq<Clause>, userName: string): (r: Option<nat>)
    ensures r.Some? ==> r.value < |clauses| && clauses[r.value].guard(userName)
    ensures r.Some? ==> forall j :: 0 <= j < r.value ==> !clauses[j].guard(userName)
    ensures r.None? <==> forall j :: 0 <= j < |clauses| ==> !clauses[j].guard(userName)
  {
    if clauses == [] then None
    else if clauses[0].guard(userName) then Some(0)
    else match FirstMatch(clauses[1..], userName)
      case None => None
      case Some(i) => Some(i + 1)
  }

  /** status.match().login(guard, result)... .login(otherwise).logout(value):
      the guarded login clauses in order, the unguarded login clause that
      closes them, and the value for Logout. */
  datatype LoginMatch = LoginMatch(guarded: seq<Clause>, otherwise: string -> string, logout: string)

  /** Applies a match to a status: Logout gives the logout value; a Login
      goes to the first clause whose guard holds of its userName, and to
      the unguarded clause when none does. */
  function Match(s: LoginStatus, m: LoginMatch): (r: string)
    ensures s.Logout? ==> r == m.logout
  {
    match s
    case Logout => m.logout
    case Login(u) =>
      match FirstMatch(m.guarded, u)
      case Some(i) => m.guarded[i].result(u)
      case None => m.otherwise(u)
  }

  /** A Login is decided by the first clause whose guard holds: no earlier
      clause interferes and later clauses are not consulted. */
  lemma MatchFirstClauseWins(s: LoginStatus, m: LoginMatch, i: nat)
    requires s.Login? && i < |m.guarded|
    requires m.guarded[i].guard(s.userName)
    requires forall j :: 0 <= j < i ==> !m.guarded[j].guard(s.userName)
    ensures Match(s, m) == m.guarded[i].result(s.userName)
  {
    var k := FirstMatch(m.guarded, s.userName);
    assert k.Some?;
  }

  /** A Login that no guard accepts falls to the unguarded clause. */
  lemma MatchOtherwise(s: LoginStatus, m: LoginMatch)
    requires s.Login?
    requires forall j :: 0 <= j < |m.guarded| ==> !m.guarded[j].guard(s.userName)
    ensures Match(s, m) == m.otherwise(s.userName)
  {
  }

  /** The match of example06_PatternMatching: one unguarded login clause
      and the logout value. */
  function DescribeMatch(): LoginMatch {
    LoginMatch([], (u: string) => "User: " + u, "Guess")
  }

  /** The function f of example06_PatternMatching: every login is
      described by its user name, a logout by "Guess". */
  function Describe(s: LoginStatus): (r: string)
    ensures s.Login? ==> r == "User: " + s.userName
    ensures s.Logout? ==> r == "Guess"
  {
    if s.Login? then MatchOtherwise(s, DescribeMatch()); Match(s, DescribeMatch())
    else Match(s, DescribeMatch())
  }

  /** The moderators of example07. */
  function Moderators(): seq<string> {
    ["Jack", "John"]
  }

  /** theLogin.userName: the accessor of the Login case's user name. A
      guard receives the login's payload, which is its user name, so the
      accessor reads the payload itself. */
  function TheLoginUserName(): (read: string -> string)
    ensures forall u :: read(u) == u
  {
    (u: string) => u
  }

  /** The match of example07_PatternMatchingWithPayLoad: a clause guarded
      by theLogin.userName.thatEquals("root"), one guarded by
      theLogin.userName.thatIsIn(moderators), the unguarded login clause,
      and the logout value. */
  function RoleMatch(): LoginMatch {
    LoginMatch(
      [ Clause(ThatEquals(TheLoginUserName(), "root"), (u: string) => "Administrator"),
        Clause(ThatIsIn(TheLoginUserName(), Moderators()), (u: string) => "Moderator") ],
      (u: string) => "User: " + u,
      "Guess")
  }

  /** The function f of example07_PatternMatchingWithPayLoad on every
      status, as a chain of conditions in clause order: the administrator
      check comes before the moderator check, and a login that is neither
      falls to the plain-user clause. */
  function Role(s: LoginStatus): (r: string)
    ensures r ==
      if s.Logout? then "Guess"
      else if s.userName == "root" then "Administrator"
      else if s.userName in Moderators() then "Moderator"
      else "User: " + s.userName
  {
    var m := RoleMatch();
    if s.Logout? then Match(s, m)
    else if s.userName == "root" then MatchFirstClauseWins(s, m, 0); Match(s, m)
    else if s.userName in Moderators() then MatchFirstClauseWins(s, m, 1); Match(s, m)
    else MatchOtherwise(s, m); Match(s, m)
  }

  // ------------------------------------------ the tests of ChoiceTypeExamples

  /** example01_Choices */
  lemma ChoicesExample()
    ensures UpOrDownToString(Up) == "Up" && UpOrDownToString(Down) == "Down"
  {
  }

  /** example02_Payload and example04_asXXX */
  lemma PayloadExample()
    ensures LoginStatusToString(Login("root")) == "Login(root)"
    ensures LoginStatusToString(Logout) == "Logout"
    ensures OrElse(MapOption(AsLogin(Login("root")), LoginStatusToString), "Not login") == "Login(root)"
    ensures OrElse(MapOption(AsLogin(Logout), LoginStatusToString), "Not login") == "Not login"
  {
    assert "Login(" + "root" == "Login(root";
    assert "Login(root" + ")" == "Login(root)";
  }

  /** example03_isXXX */
  lemma IsXExample()
    ensures IsLogin(Login("root")) && !IsLogout(Login("root"))
    ensures !IsLogin(Logout) && IsLogout(Logout)
  {
  }

  /** example06_PatternMatching */
  lemma PatternMatchingExample()
    ensures Describe(Login("root")) == "User: root"
    ensures Describe(Logout) == "Guess"
  {
  }

  /** example07_PatternMatchingWithPayLoad */
  lemma PatternMatchingWithPayloadExample()
    ensures Role(Login("root")) == "Administrator"
    ensures Role(Login("Jack")) == "Moderator"
    ensures Role(Logout) == "Guess"
  {
    assert "Jack" != "root" by { assert "Jack"[0] != "root"[0]; }
    assert "Jack" in Moderators();
  }
}
