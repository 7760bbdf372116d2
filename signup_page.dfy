/**
 * The sign-up form of the client (website/client/src/Pages/Signup/SignUpPage.js):
 * four text fields, one change handler dispatching on the input's name, and
 * a submit guard that reports the first problem it finds.
 */
module SignUpPage {
  import opened Common

  /** The outcome of the submit checks, in the order they are made. */
  datatype Verdict = MissingField | PasswordMismatch | Accepted

  const MissingFieldError: string := "All fields are required!"
  const MismatchError: string := "Passwords do not match!"
  const HobbiesRoute: string := "/hobbies"

  /**
   * The submit checks: an empty field comes first, then a password that
   * differs from its confirmation; otherwise the form is accepted.
   */
  function Validate(email: string, username: string, password: string, confirmPassword: string): (v: Verdict)
    ensures v == MissingField <==> email == "" || username == "" || password == "" || confirmPassword == ""
    ensures v == PasswordMismatch <==>
              email != "" && username != "" && password != "" && confirmPassword != "" && password != confirmPassword
    ensures v == Accepted <==>
              email != "" && username != "" && password != "" && password == confirmPassword
  {
    if email == "" || username == "" || password == "" || confirmPassword == "" then MissingField
    else if password != confirmPassword then PasswordMismatch
    else Accepted
  }

  /** The message shown for a rejected form. */
  function ErrorText(v: Verdict): (text: string)
    requires v != Accepted
    ensures v == MissingField ==> text == MissingFieldError
    ensures v == PasswordMismatch ==> text == MismatchError
    ensures text != ""
  {
    match v
    case MissingField => MissingFieldError
    case PasswordMismatch => MismatchError
  }

  /** An empty field is reported even when the passwords also differ. */
  lemma MissingFieldTakesPriority(email: string, username: string, password: string, confirmPassword: string)
    requires email == "" || username == ""
    requires password != confirmPassword
    ensures Validate(email, username, password, confirmPassword) == MissingField
  {
  }

  class SignUpForm {
    var email: string
    var username: string
    var password: string
    var confirmPassword: string
    var errorMessage: string

    /** The empty form. */
    constructor ()
      ensures email == "" && username == "" && password == "" && confirmPassword == "" && errorMessage == ""
    {
      email := "";
      username := "";
      password := "";
      confirmPassword := "";
      errorMessage := "";
    }

    /** Typing into the input called `name`: that field takes `value`; any other name changes nothing. */
    method HandleChange(name: string, value: string)
      modifies this
      ensures email == (if name == "email" then value else old(email))
      ensures username == (if name == "username" then value else old(username))
      ensures password == (if name == "password" then value else old(password))
      ensures confirmPassword == (if name == "confirmPassword" then value else old(confirmPassword))
      ensures errorMessage == old(errorMessage)
    {
      match name
      case "email" => email := value;
      case "username" => username := value;
      case "password" => password := value;
      case "confirmPassword" => confirmPassword := value;
      case _ =>
    }

    /**
     * Submitting: a rejected form shows its message and stays; an accepted
     * one clears the message and moves on to the hobby picker.
     */
    method HandleSubmit() returns (route: Option<string>)
      modifies this
      ensures email == old(email) && username == old(username)
      ensures password == old(password) && confirmPassword == old(confirmPassword)
      ensures var v := Validate(email, username, password, confirmPassword);
        && (v == Accepted ==> route == Some(HobbiesRoute) && errorMessage == "")
        && (v != Accepted ==> route == None && errorMessage == ErrorText(v))
    {
      if email == "" || username == "" || password == "" || confirmPassword == "" {
        errorMessage := MissingFieldError;
        return None;
      }
      if password != confirmPassword {
        errorMessage := MismatchError;
        return None;
      }
      errorMessage := "";
      route := Some(HobbiesRoute);
    }
  }
}
