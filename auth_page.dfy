/** Sign-in and sign-up against the stored list of accounts. */
module AuthPage {
  import opened Wrappers
  import opened Types
  import opened Seqs

  /** A stored user together with the password kept beside it. */
  datatype Account = Account(user: User, password: string)

  /** The form's three text fields. */
  datatype Form = Form(name: string, email: string, password: string)

  const WRONG_CREDENTIALS := "ایمیل یا رمز عبور اشتباه است."
  const EMAIL_TAKEN := "این ایمیل قبلاً ثبت شده است."

  function Credentials(email: string, password: string): Account -> bool {
    (a: Account) => a.user.email == email && a.password == password
  }

  function HasEmail(email: string): Account -> bool {
    (a: Account) => a.user.email == email
  }

  /** The account a sign-in picks: the first stored one with that email and password. */
  function FindLogin(accounts: seq<Account>, email: string, password: string): Option<Account> {
    Find(accounts, Credentials(email, password))
  }

  predicate EmailTaken(accounts: seq<Account>, email: string) {
    Find(accounts, HasEmail(email)).Some?
  }

  /** The account a sign-up stores: level 0 for a citizen (placement pending) and 5 for any other role,
      no history and no experience. */
  function NewAccount(id: string, form: Form, role: UserRole): (a: Account)
    ensures a.user.level == (if role == Citizen then 0 else 5)
    ensures a.user.level == 0 <==> role == Citizen
    ensures a.user.id == id && a.user.name == form.name && a.user.email == form.email && a.user.role == role
    ensures a.user.scoreHistory == [] && a.user.xp == 0 && a.password == form.password
  {
    Account(User(id, form.name, form.email, role, if role == Citizen then 0 else 5, [], 0), form.password)
  }

  /** What one press of the submit button leaves behind: the stored accounts, the user handed to `onLogin`
      (if any) and the error line. */
  datatype Outcome = Outcome(accounts: seq<Account>, loggedIn: Option<User>, error: string)

  /** `handleSubmit` on the accounts read from storage. */
  function Submit(accounts: seq<Account>, isLogin: bool, form: Form, role: UserRole, newId: string): Outcome {
    if isLogin then
      match FindLogin(accounts, form.email, form.password)
      case Some(a) => Outcome(accounts, Some(a.user), "")
      case None => Outcome(accounts, None, WRONG_CREDENTIALS)
    else if EmailTaken(accounts, form.email) then
      Outcome(accounts, None, EMAIL_TAKEN)
    else
      var a := NewAccount(newId, form, role);
      Outcome(accounts + [a], Some(a.user), "")
  }

  /** Sign-in never changes the store, and it succeeds exactly when some stored account has that email and
      password, handing over the first such account's user. */
  lemma SignInSpec(accounts: seq<Account>, form: Form, role: UserRole, newId: string)
    ensures var o := Submit(accounts, true, form, role, newId);
      o.accounts == accounts &&
      (o.loggedIn.Some? <==> exists a :: a in accounts && a.user.email == form.email && a.password == form.password) &&
      (o.loggedIn.Some? ==>
         o.error == "" &&
         exists i :: 0 <= i < |accounts| && accounts[i].user == o.loggedIn.value &&
           accounts[i].user.email == form.email && accounts[i].password == form.password &&
           forall j :: 0 <= j < i ==> !(accounts[j].user.email == form.email && accounts[j].password == form.password)) &&
      (o.loggedIn.None? ==> o.error == WRONG_CREDENTIALS)
  {
    var p := Credentials(form.email, form.password);
    if FindLogin(accounts, form.email, form.password).Some? {
      var i := FindIndex(accounts, p).value;
      assert accounts[i].user == Submit(accounts, true, form, role, newId).loggedIn.value;
    } else {
      forall a | a in accounts
        ensures !(a.user.email == form.email && a.password == form.password)
      {
        assert !p(a);
      }
    }
  }

  /** Signing up with an email already stored is refused and stores nothing. */
  lemma DuplicateSignUpRefused(accounts: seq<Account>, form: Form, role: UserRole, newId: string)
    requires exists a :: a in accounts && a.user.email == form.email
    ensures Submit(accounts, false, form, role, newId) == Outcome(accounts, None, EMAIL_TAKEN)
  {
    var a :| a in accounts && a.user.email == form.email;
    assert HasEmail(form.email)(a);
  }

  /** A successful sign-up appends exactly one account and logs its user in. */
  lemma SignUpAppends(accounts: seq<Account>, form: Form, role: UserRole, newId: string)
    requires forall a :: a in accounts ==> a.user.email != form.email
    ensures var o := Submit(accounts, false, form, role, newId);
      o.accounts == accounts + [NewAccount(newId, form, role)] && o.loggedIn == Some(NewAccount(newId, form, role).user) &&
      o.error == ""
  {
    forall a | a in accounts
      ensures !HasEmail(form.email)(a)
    {
    }
  }

  /** No two stored accounts share an email. */
  predicate DistinctEmails(accounts: seq<Account>) {
    forall i, j :: 0 <= i < j < |accounts| ==> accounts[i].user.email != accounts[j].user.email
  }

  /** Submitting keeps emails distinct, and only ever appends to the store. */
  lemma SubmitKeepsEmailsDistinct(accounts: seq<Account>, isLogin: bool, form: Form, role: UserRole, newId: string)
    requires DistinctEmails(accounts)
    ensures var o := Submit(accounts, isLogin, form, role, newId);
      DistinctEmails(o.accounts) && |accounts| <= |o.accounts| && o.accounts[..|accounts|] == accounts
  {
    var o := Submit(accounts, isLogin, form, role, newId);
    if !isLogin && !EmailTaken(accounts, form.email) {
      forall i | 0 <= i < |accounts|
        ensures accounts[i].user.email != form.email
      {
        assert !HasEmail(form.email)(accounts[i]);
      }
    }
  }

  /** Whoever signs up can sign in straight away with the same email and password. */
  lemma SignUpThenSignIn(accounts: seq<Account>, form: Form, role: UserRole, newId: string, role2: UserRole, newId2: string)
    requires !EmailTaken(accounts, form.email)
    ensures var o := Submit(accounts, false, form, role, newId);
      Submit(o.accounts, true, form, role2, newId2).loggedIn == o.loggedIn
  {
    var a := NewAccount(newId, form, role);
    assert FindLogin(accounts, form.email, form.password).None? by {
      forall b | b in accounts
        ensures !Credentials(form.email, form.password)(b)
      {
        assert !HasEmail(form.email)(b);
      }
    }
    FindAppend(accounts, [a], Credentials(form.email, form.password));
    assert Credentials(form.email, form.password)(a);
  }

  /** The page: the sign-in/sign-up toggle, the chosen role, the form and the error line; `accounts` stands
      for the list kept in the browser's storage. */
  class AuthPage {
    var accounts: seq<Account>
    var isLogin: bool
    var role: UserRole
    var form: Form
    var error: string

    constructor (accounts: seq<Account>)
      ensures this.accounts == accounts && isLogin && role == Citizen && form == Form("", "", "") && error == ""
    {
      this.accounts := accounts;
      isLogin := true;
      role := Citizen;
      form := Form("", "", "");
      error := "";
    }

    /** The two tabs at the top. */
    method SetMode(login: bool)
      modifies this`isLogin
      ensures isLogin == login
    {
      isLogin := login;
    }

    /** The role buttons of the sign-up form. */
    method SetRole(r: UserRole)
      modifies this`role
      ensures role == r
    {
      role := r;
    }

    method EditForm(f: Form)
      modifies this`form
      ensures form == f
    {
      form := f;
    }

    /** `handleSubmit`: clears the error, then signs in or signs up; returns the user passed to `onLogin`.
        The form's `required` inputs keep it from being submitted with an empty email or password, or, when
        signing up, an empty name. */
    method HandleSubmit(newId: string) returns (loggedIn: Option<User>)
      requires form.email != "" && form.password != "" && (!isLogin ==> form.name != "")
      modifies this`accounts, this`error
      ensures var o := Submit(old(accounts), isLogin, form, role, newId);
        accounts == o.accounts && loggedIn == o.loggedIn && error == o.error
    {
      error := "";
      if isLogin {
        var found := FindLogin(accounts, form.email, form.password);
        if found.Some? {
          loggedIn := Some(found.value.user);
        } else {
          error := WRONG_CREDENTIALS;
          loggedIn := None;
        }
      } else {
        if EmailTaken(accounts, form.email) {
          error := EMAIL_TAKEN;
          return None;
        }
        var account := NewAccount(newId, form, role);
        accounts := accounts + [account];
        loggedIn := Some(account.user);
      }
    }
  }
}
