/** The two-step sign-up of views/Signup.tsx: choose a role, then fill in
    name, email and password and create the account. The simulated delay is
    left out, so the submission is one step. */
module SignupView {
  import opened Types
  import Store

  /** `step`, `role` and `formData`. */
  datatype Form = Form(step: nat, role: UserRole, name: string, email: string, password: string)

  const Initial := Form(1, CUSTOMER, "", "", "")

  /** The clicks and keystrokes the screen reacts to. Step 1 shows only the
      two role cards and Continue; any other step shows only the fields, Back and
      Create Account. */
  datatype Event =
    | ChooseCustomer | ChooseVet | Continue | Back
    | TypeName(name: string) | TypeEmail(email: string) | TypePassword(password: string)

  function Step(f: Form, e: Event): (r: Form)
    ensures f.step == 1 && e == Continue ==> r.step == 2
    ensures f.step != 1 && e == Back ==> r.step == 1
    ensures r.role == f.role || (f.step == 1 && (e == ChooseCustomer || e == ChooseVet))
    ensures r.password == f.password || (f.step != 1 && e.TypePassword?)
  {
    if f.step == 1 then
      match e
      case ChooseCustomer => f.(role := CUSTOMER)
      case ChooseVet => f.(role := VETERINARIAN)
      case Continue => f.(step := 2)
      case _ => f
    else
      match e
      case Back => f.(step := 1)
      case TypeName(n) => f.(name := n)
      case TypeEmail(m) => f.(email := m)
      case TypePassword(p) => f.(password := p)
      case _ => f
  }

  /** Continue then Back returns to the role choice with everything kept. */
  lemma ContinueThenBack(f: Form)
    requires f.step == 1
    ensures Step(Step(f, Continue), Back) == f
  {
  }

  function Run(f: Form, events: seq<Event>): Form
    decreases |events|
  {
    if events == [] then f else Run(Step(f, events[0]), events[1..])
  }

  /** What every reachable form satisfies: it is on step 1 or 2, and its role
      is one a visitor can pick. */
  predicate Valid(f: Form) {
    (f.step == 1 || f.step == 2) && (f.role == CUSTOMER || f.role == VETERINARIAN)
  }

  lemma {:induction false} RunKeepsValid(f: Form, events: seq<Event>)
    requires Valid(f)
    ensures Valid(Run(f, events))
    decreases |events|
  {
    if events != [] {
      var next := Step(f, events[0]);
      assert Valid(next);
      RunKeepsValid(next, events[1..]);
    }
  }

  /** The arguments `handleSignup` gives `register`; the avatar is left
      empty for the store to fill in, and the password goes nowhere. */
  function Draft(f: Form): (d: UserDraft)
    ensures d.name == f.name && d.email == f.email && d.role == f.role && d.avatar == ""
  {
    UserDraft(f.name, f.email, f.role, "")
  }

  /** `handleSignup`: the account is registered and becomes the current user. */
  function Submit(st: Store.State, f: Form, now: nat): (r: Store.State)
    ensures r.user.Some? && r.user.value.role == f.role
    ensures r.user.value.name == f.name && r.user.value.email == f.email
    ensures r.pets == st.pets && r.appointments == st.appointments
  {
    Store.Register(st, Draft(f), now)
  }

  /** The password does not influence the account created. */
  lemma PasswordIgnored(st: Store.State, f: Form, password: string, now: nat)
    ensures Submit(st, f, now) == Submit(st, f.(password := password), now)
  {
  }

  /** Whatever a visitor does before submitting, the account created is a
      customer's or a veterinarian's, never an administrator's, and has the
      role last chosen. */
  lemma SignupNeverAdmin(st: Store.State, events: seq<Event>, now: nat)
    ensures var f := Run(Initial, events);
            var u := Submit(st, f, now).user.value;
            u.role == f.role && u.role != ADMIN
  {
    RunKeepsValid(Initial, events);
  }
}
