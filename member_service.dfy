/** `MemberService` and `AuthService` over an in-memory member store:
    signup, login, and the check of the Basic credential a cookie carries. */
module Members {
  import opened Common

  /** A stored member. */
  datatype Member = Member(id: int, email: string, password: string, username: string)

  datatype SignupRequest = SignupRequest(email: string, password: string, username: string)

  datatype LoginRequest = LoginRequest(email: string, password: string)

  /** What a successful authentication returns: the member's identity,
      never the password. */
  datatype MemberDto = MemberDto(id: int, email: string)

  /** The user-id and password of an HTTP Basic credential (section 2 of
      RFC 7617), already decoded from the cookie; the user-id is the email. */
  datatype Credential = Credential(userId: string, password: string)

  function ToDto(m: Member): MemberDto {
    MemberDto(m.id, m.email)
  }

  /** The store: ids are 1, 2, 3, ... in insertion order, and no email or
      username is stored twice. */
  predicate MemberTable(members: seq<Member>) {
    && (forall i :: 0 <= i < |members| ==> members[i].id == i + 1)
    && (forall i, j :: 0 <= i < j < |members| ==> members[i].email != members[j].email)
    && (forall i, j :: 0 <= i < j < |members| ==> members[i].username != members[j].username)
  }

  predicate EmailTaken(members: seq<Member>, email: string) {
    exists m :: m in members && m.email == email
  }

  predicate UsernameTaken(members: seq<Member>, username: string) {
    exists m :: m in members && m.username == username
  }

  /** The member stored under an email, if any. */
  function FindByEmail(members: seq<Member>, email: string): (r: Option<Member>)
    ensures r.Some? ==> r.value in members && r.value.email == email
    ensures r.None? <==> !EmailTaken(members, email)
  {
    if members == [] then None
    else if members[|members| - 1].email == email then Some(members[|members| - 1])
    else
      var r := FindByEmail(members[..|members| - 1], email);
      assert members == members[..|members| - 1] + [members[|members| - 1]];
      r
  }

  /** Some stored member has exactly this email and this password. */
  predicate Registered(members: seq<Member>, email: string, password: string) {
    exists m :: m in members && m.email == email && m.password == password
  }

  /** The check `login` and the cookie check share: the member stored under
      the email, if its password is exactly the given one. Succeeds only on
      a registered pair, always does on one when emails are unique, returns
      that member's identity, and otherwise fails with "인증에 실패했습니다.". */
  function Authenticate(members: seq<Member>, email: string, password: string): (r: Result<MemberDto>)
    ensures r.Ok? ==> Registered(members, email, password)
    ensures r.Ok? ==> exists m :: m in members && m.email == email && r.value == ToDto(m)
    ensures MemberTable(members) && Registered(members, email, password) ==> r.Ok?
    ensures r.Err? ==> r.error == AuthenticationFailed
  {
    match FindByEmail(members, email)
    case None => Err(AuthenticationFailed)
    case Some(m) =>
      if m.password == password then Ok(ToDto(m))
      else Err(AuthenticationFailed)
  }

  /** A member who just signed up can log in with the same email and
      password, and gets their own identity back. */
  lemma SignupThenLogin(members: seq<Member>, m: Member)
    requires MemberTable(members + [m])
    ensures Authenticate(members + [m], m.email, m.password) == Ok(ToDto(m))
  {
    var all := members + [m];
    assert all[|all| - 1] == m;
    assert FindByEmail(all, m.email) == Some(m);
  }

  /** The member store and the two services over it. */
  class MemberService {
    var members: seq<Member>

    ghost predicate Valid()
      reads this
    {
      MemberTable(members)
    }

    constructor ()
      ensures Valid() && members == []
    {
      members := [];
    }

    /** `signup(request)`: fails with "이메일이 이미 존재합니다." when the
        email is stored, else with "사용자명이 이미 존재합니다." when the
        username is; otherwise stores and returns a member with the next id
        and the request's email, password and username. */
    method Signup(request: SignupRequest) returns (r: Result<Member>)
      requires Valid()
      modifies this
      ensures Valid()
      ensures EmailTaken(old(members), request.email) ==> r == Err(DuplicateEmail) && members == old(members)
      ensures !EmailTaken(old(members), request.email) && UsernameTaken(old(members), request.username) ==>
                r == Err(DuplicateUsername) && members == old(members)
      ensures !EmailTaken(old(members), request.email) && !UsernameTaken(old(members), request.username) ==>
                && r == Ok(Member(|old(members)| + 1, request.email, request.password, request.username))
                && members == old(members) + [r.value]
    {
      if EmailTaken(members, request.email) {
        return Err(DuplicateEmail);
      }
      if UsernameTaken(members, request.username) {
        return Err(DuplicateUsername);
      }
      var member := Member(|members| + 1, request.email, request.password, request.username);
      ghost var before := members;
      members := members + [member];
      forall i, j | 0 <= i < j < |members| ensures members[i].email != members[j].email && members[i].username != members[j].username {
        if j == |before| {
          assert members[i] in before;
        }
      }
      r := Ok(member);
    }

    /** `login(request)`: the identity of the member stored under the email
        when the password matches exactly; otherwise "인증에 실패했습니다.". */
    function Login(request: LoginRequest): (r: Result<MemberDto>)
      reads this
      requires Valid()
      ensures r.Ok? <==> Registered(members, request.email, request.password)
      ensures r.Ok? ==> exists m :: m in members && m.email == request.email && r.value == ToDto(m)
      ensures r.Err? ==> r.error == AuthenticationFailed
    {
      Authenticate(members, request.email, request.password)
    }

    /** `checkLogin(cookies)`, given the credential the Authorization
        cookie carries: passes exactly when the pair is registered. */
    function CheckLogin(credential: Credential): (r: Outcome)
      reads this
      requires Valid()
      ensures r.Pass? <==> Registered(members, credential.userId, credential.password)
      ensures r.Fail? ==> r.error == AuthenticationFailed
    {
      match Authenticate(members, credential.userId, credential.password)
      case Ok(_) => Pass
      case Err(e) => Fail(e)
    }
  }

  /** The first signup gets id 1 and keeps the request's fields. */
  method SignupScenario() returns (first: Result<Member>)
    ensures first == Ok(Member(1, "code@zap.com", "password", "chorong"))
  {
    var service := new MemberService();
    first := service.Signup(SignupRequest("code@zap.com", "password", "chorong"));
  }

  /** A stored email is refused, and so is a stored username under a new
      email, each with its message. */
  method DuplicateSignupScenario() returns (sameEmail: Result<Member>, sameName: Result<Member>)
    ensures sameEmail == Err(DuplicateEmail) && Message(sameEmail.error) == "이메일이 이미 존재합니다."
    ensures sameName == Err(DuplicateUsername) && Message(sameName.error) == "사용자명이 이미 존재합니다."
  {
    MessageTexts();
    var zappy := new MemberService();
    var saved := zappy.Signup(SignupRequest("code@zap.com", "pw1234", "zappy"));
    assert zappy.members[0].email == "code@zap.com";
    sameEmail := zappy.Signup(SignupRequest("code@zap.com", "password", "chorong"));
    assert zappy.members == [Member(1, "code@zap.com", "pw1234", "zappy")];
    assert zappy.members[0].username == "zappy";
    sameName := zappy.Signup(SignupRequest("chorong@zangsu.com", "password", "zappy"));
  }

  /** The login and cookie cases: the stored pair logs in and passes the
      cookie check; a wrong password or an unknown pair fails. */
  method LoginScenario() returns (
    login: Result<MemberDto>, wrongPassword: Result<MemberDto>, cookie: Outcome, wrongCookie: Outcome)
    ensures login == Ok(MemberDto(1, "code@zap.com"))
    ensures wrongPassword == Err(AuthenticationFailed) && Message(wrongPassword.error) == "인증에 실패했습니다."
    ensures cookie == Pass
    ensures wrongCookie == Fail(AuthenticationFailed) && Message(wrongCookie.error) == "인증에 실패했습니다."
  {
    MessageTexts();
    var service := new MemberService();
    var saved := service.Signup(SignupRequest("code@zap.com", "pw1234", "zappy"));
    var m := Member(1, "code@zap.com", "pw1234", "zappy");
    assert service.members == [m];
    login := service.Login(LoginRequest("code@zap.com", "pw1234"));
    assert "wrongpassword" != "pw1234";
    wrongPassword := service.Login(LoginRequest("code@zap.com", "wrongpassword"));
    cookie := service.CheckLogin(Credential("code@zap.com", "pw1234"));
    assert "wrong@email.kr" != "code@zap.com";
    wrongCookie := service.CheckLogin(Credential("wrong@email.kr", "nopassword"));
  }
}
