/** The account serializers (store/serializers/user.py): SignupSerializer,
    which checks the two passwords and inserts the user, and
    UserProfileSerializer, whose email check excludes the user being
    edited. */
module UserSerializer {
  import opened Common
  import opened Models

  /** The signup request; None is an absent field. */
  datatype SignupInput = SignupInput(name: Option<string>, email: Option<string>, password: Option<string>,
                                     confirmPassword: Option<string>, address: Option<string>,
                                     phoneNumber: Option<string>)

  const MinPasswordLength: nat := 8
  /** The password column's max_length, which the model field carries into
      the serializer; confirm_password is declared on the serializer without
      one. */
  const MaxPasswordLength: nat := 128
  const MinLengthMessage: string := "Ensure this field has at least 8 characters."
  const MismatchMessage: string := "Password and confirm password do not match"
  /** The unique-column message for the email field. */
  const EmailTakenMessage: string := "custom user with this email already exists."
  const EmailInUseMessage: string := "This email is already in use."

  predicate EmailHeld(users: map<UserId, User>, email: string)
  {
    exists u :: u in users && users[u].email == email
  }

  /** A password field: required, not blank, at least eight characters,
      and at most `maxLength` characters when the field has a maximum. */
  function PasswordError(value: Option<string>, maxLength: Option<nat>): (r: Option<string>)
    requires maxLength.None? || maxLength.value >= MinPasswordLength
    ensures r.None? <==> value.Some? && MinPasswordLength <= |value.value| && (maxLength.None? || |value.value| <= maxLength.value)
    ensures value.None? ==> r == Some(RequiredMessage)
    ensures value == Some("") ==> r == Some(BlankMessage)
    ensures value.Some? && 0 < |value.value| < MinPasswordLength ==> r == Some(MinLengthMessage)
    ensures value.Some? && maxLength.Some? && |value.value| > maxLength.value ==> r == Some(MaxLengthMessage(maxLength.value))
  {
    match value
    case None => Some(RequiredMessage)
    case Some(v) =>
      if v == "" then Some(BlankMessage)
      else if |v| < MinPasswordLength then Some(MinLengthMessage)
      else if maxLength.Some? && |v| > maxLength.value then Some(MaxLengthMessage(maxLength.value))
      else None
  }

  /** The email field: required, not blank, and held by no user. */
  function EmailError(users: map<UserId, User>, value: Option<string>): (r: Option<string>)
    ensures r.None? <==> value.Some? && value.value != "" && !EmailHeld(users, value.value)
    ensures value.Some? && value.value != "" && EmailHeld(users, value.value) ==> r == Some(EmailTakenMessage)
  {
    match value
    case None => Some(RequiredMessage)
    case Some(v) =>
      if v == "" then Some(BlankMessage)
      else if EmailHeld(users, v) then Some(EmailTakenMessage)
      else None
  }

  /** The field errors, one message per failing field. */
  function SignupFieldErrors(users: map<UserId, User>, input: SignupInput): (r: map<string, string>)
    ensures "email" in r <==> EmailError(users, input.email).Some?
    ensures "password" in r <==> PasswordError(input.password, Some(MaxPasswordLength)).Some?
    ensures "confirm_password" in r <==> PasswordError(input.confirmPassword, None).Some?
    ensures "password" in r ==> r["password"] == PasswordError(input.password, Some(MaxPasswordLength)).value
    ensures r.Keys <= {"email", "password", "confirm_password"}
  {
    var e: map<string, string> := map[];
    var e := if EmailError(users, input.email).Some? then e["email" := EmailError(users, input.email).value] else e;
    var e := if PasswordError(input.password, Some(MaxPasswordLength)).Some? then e["password" := PasswordError(input.password, Some(MaxPasswordLength)).value] else e;
    if PasswordError(input.confirmPassword, None).Some? then e["confirm_password" := PasswordError(input.confirmPassword, None).value] else e
  }

  /** is_valid(): the field checks, then `validate`, which compares the two
      passwords only once every field passed. */
  function ValidateSignup(users: map<UserId, User>, input: SignupInput): (r: Result<SignupInput, map<string, string>>)
    ensures r.Ok? ==> r.value == input
    ensures SignupFieldErrors(users, input) != map[] ==> r == Err(SignupFieldErrors(users, input))
  {
    var fields := SignupFieldErrors(users, input);
    if fields != map[] then Err(fields)
    else if input.password != input.confirmPassword then Err(map["confirm_password" := MismatchMessage])
    else Ok(input)
  }

  /** Accepted exactly when the email is new and both passwords are present,
      equal, and between eight and 128 characters long. */
  lemma SignupRule(users: map<UserId, User>, input: SignupInput)
    ensures ValidateSignup(users, input).Ok? <==>
              && input.email.Some? && input.email.value != "" && !EmailHeld(users, input.email.value)
              && input.password.Some? && MinPasswordLength <= |input.password.value| <= MaxPasswordLength
              && input.confirmPassword == input.password
  {
    var fields := SignupFieldErrors(users, input);
    if EmailError(users, input.email).Some? { assert "email" in fields; }
    if PasswordError(input.password, Some(MaxPasswordLength)).Some? { assert "password" in fields; }
    if PasswordError(input.confirmPassword, None).Some? { assert "confirm_password" in fields; }
  }

  /** Two well-formed but different passwords are reported under
      "confirm_password" alone. */
  lemma MismatchKeyedOnConfirm(users: map<UserId, User>, input: SignupInput)
    requires SignupFieldErrors(users, input) == map[]
    requires input.password != input.confirmPassword
    ensures ValidateSignup(users, input) == Err(map["confirm_password" := MismatchMessage])
  {
  }

  /** A seven-character password fails on the password field. */
  lemma ShortPasswordRejected(users: map<UserId, User>, input: SignupInput)
    requires input.password == Some("short1!")
    ensures var r := ValidateSignup(users, input);
            r.Err? && "password" in r.error && r.error["password"] == MinLengthMessage
  {
  }

  /** A password over 128 characters fails on the password field, even when
      confirm_password repeats it: that field has no maximum. */
  lemma LongPasswordRejected(users: map<UserId, User>, input: SignupInput)
    requires input.password.Some? && |input.password.value| > MaxPasswordLength
    requires input.confirmPassword == input.password
    ensures var r := ValidateSignup(users, input);
            && r.Err? && "password" in r.error && r.error["password"] == MaxLengthMessage(MaxPasswordLength)
            && "confirm_password" !in r.error
  {
  }

  /** SignupSerializer.create: confirm_password is dropped and the account
      row takes the next id, with a missing name, address or phone number
      stored as ''. The password itself goes to the framework's user manager
      and is not kept here. */
  method CreateUser(db: Store, input: SignupInput) returns (id: UserId)
    requires db.UsersValid()
    requires ValidateSignup(db.users, input).Ok?
    modifies db`users, db`nextUserId
    ensures db.UsersValid()
    ensures old(db.CategoriesValid()) ==> db.CategoriesValid()
    ensures old(db.OrdersValid()) ==> db.OrdersValid()
    ensures id == old(db.nextUserId) && id !in old(db.users) && db.nextUserId == id + 1
    ensures input.email.Some?
    ensures db.users == old(db.users)[id := User(input.email.value, input.name.GetOr(""),
                                                 input.address.GetOr(""), input.phoneNumber.GetOr(""))]
  {
    SignupRule(db.users, input);
    id := db.nextUserId;
    db.users := db.users[id := User(input.email.value, input.name.GetOr(""),
                                    input.address.GetOr(""), input.phoneNumber.GetOr(""))];
    db.nextUserId := id + 1;
  }

  /** After a signup the same email is refused, so no two accounts share
      one. */
  lemma {:induction false} SecondSignupRejected(users: map<UserId, User>, id: UserId, input: SignupInput, again: SignupInput)
    requires ValidateSignup(users, input).Ok? && input.email.Some?
    requires again.email == input.email
    ensures var after := users[id := User(input.email.value, input.name.GetOr(""), input.address.GetOr(""), input.phoneNumber.GetOr(""))];
            var r := ValidateSignup(after, again);
            r.Err? && "email" in r.error && r.error["email"] == EmailTakenMessage
  {
    SignupRule(users, input);
    var after := users[id := User(input.email.value, input.name.GetOr(""), input.address.GetOr(""), input.phoneNumber.GetOr(""))];
    assert after[id].email == input.email.value;
    assert EmailHeld(after, input.email.value);
    assert "email" in SignupFieldErrors(after, again);
  }

  // ---------------------------------------------------------------------------
  // UserProfileSerializer

  /** validate_email for the profile of user `self`: refused when a user
      other than `self` holds the address. */
  function ValidateEmail(users: map<UserId, User>, self: UserId, value: string): (r: Result<string, string>)
    ensures r.Err? <==> exists u :: u in users && u != self && users[u].email == value
    ensures r.Ok? ==> r.value == value
    ensures r.Err? ==> r.error == EmailInUseMessage
  {
    if exists u :: u in users && u != self && users[u].email == value then Err(EmailInUseMessage) else Ok(value)
  }

  /** Keeping one's own email passes when emails are unique. */
  lemma OwnEmailAccepted(users: map<UserId, User>, self: UserId)
    requires self in users && UniqueEmails(users)
    ensures ValidateEmail(users, self, users[self].email) == Ok(users[self].email)
  {
  }

  /** Any email another user holds is refused. */
  lemma OthersEmailRejected(users: map<UserId, User>, self: UserId, other: UserId)
    requires other in users && other != self
    ensures ValidateEmail(users, self, users[other].email) == Err(EmailInUseMessage)
  {
  }

  /** A profile email that passes keeps emails unique when stored. */
  lemma {:induction false} AcceptedEmailKeepsUnique(users: map<UserId, User>, self: UserId, value: string)
    requires self in users && UniqueEmails(users)
    requires ValidateEmail(users, self, value).Ok?
    ensures UniqueEmails(users[self := users[self].(email := value)])
  {
    var after := users[self := users[self].(email := value)];
    forall u, v | u in after && v in after && after[u].email == after[v].email
      ensures u == v
    {
      if u != self && v != self {
        assert users[u].email == users[v].email;
      }
    }
  }
}
