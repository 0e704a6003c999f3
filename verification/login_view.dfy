/** The sign-in form of views/Login.tsx: the submitted email and password
    decide which mock account is signed in, or the form shows an error. */
module LoginView {
  import opened Types
  import Text
  import Store

  const AdminEmail := "admin@petpulse.com"
  const AdminPassword := "admin"
  const VetDomain := "@petpulse.vet"
  const InvalidCredentials := "Invalid credentials"

  /** What one submission does: sign in with a role, or show an error. */
  datatype Outcome = SignIn(role: UserRole) | Error(message: string)

  /** `handleLogin`: the admin pair signs in as ADMIN; otherwise an email
      containing the vet domain signs in as VETERINARIAN; otherwise any
      non-empty email signs in as CUSTOMER; an empty email is an error. */
  function Classify(email: string, password: string): (r: Outcome)
    ensures r.Error? <==> email == ""
    ensures r.Error? ==> r.message == InvalidCredentials
    ensures r == SignIn(ADMIN) <==> email == AdminEmail && password == AdminPassword
    ensures r == SignIn(VETERINARIAN) <==>
              !(email == AdminEmail && password == AdminPassword) && Text.Includes(email, VetDomain)
  {
    if email == AdminEmail && password == AdminPassword then SignIn(ADMIN)
    else if Text.Includes(email, VetDomain) then SignIn(VETERINARIAN)
    else if email != "" then SignIn(CUSTOMER)
    else Error(InvalidCredentials)
  }

  /** The admin email does not contain the vet domain. */
  lemma AdminEmailIsNotVet()
    ensures !Text.Includes(AdminEmail, VetDomain)
  {
    assert VetDomain[10] == 'v' && 'v' !in AdminEmail;
    Text.MissingCharExcludes(AdminEmail, VetDomain, 10);
  }

  /** The password matters only for the admin email: with any other email,
      every password gives the same outcome. */
  lemma PasswordOnlyForAdmin(email: string, p1: string, p2: string)
    requires email != AdminEmail
    ensures Classify(email, p1) == Classify(email, p2)
  {
  }

  /** The admin email with a wrong password signs in as a customer. */
  lemma AdminEmailWrongPassword(password: string)
    requires password != AdminPassword
    ensures Classify(AdminEmail, password) == SignIn(CUSTOMER)
  {
    AdminEmailIsNotVet();
  }

  /** A submission against the store: the session user, if any, has the classified role. */
  function Submit(st: Store.State, email: string, password: string): (r: (Store.State, string))
    ensures Classify(email, password).SignIn? ==>
              r.0.user.Some? && r.0.user.value.role == Classify(email, password).role && r.1 == ""
    ensures email == "" ==> r.0 == st && r.1 == InvalidCredentials
  {
    match Classify(email, password)
    case SignIn(role) => (Store.Login(st, role), "")
    case Error(message) => (st, message)
  }
}
