/** The registration form: four text fields, an `error` message and a `loading` flag,
    and the submit handler that checks the password confirmation before posting the
    registration and then either moves to the login page or shows the server's error. */
module Registration {
  import opened JsValues
  import opened Routes

  const MismatchError := "Passwords don't match!"
  const DefaultRegistrationError := "An error occurred during registration"

  /** The body posted to the registration endpoint; the password travels under the key
      `passwordx` and the name under `fullName`. */
  function RegisterBody(fullName: string, username: string, password: string): (body: Record)
    ensures body.Keys == {"fullName", "username", "passwordx"}
    ensures "password" !in body && "fullname" !in body
    ensures body["fullName"] == Str(fullName) && body["username"] == Str(username)
    ensures body["passwordx"] == Str(password)
  {
    map["fullName" := Str(fullName), "username" := Str(username), "passwordx" := Str(password)]
  }

  /** `error.response?.data?.message || 'An error occurred during registration'`: the
      message shown after a failed registration is never blank. */
  function RegistrationError(message: Value): (shown: Value)
    ensures Truthy(shown)
    ensures Truthy(message) ==> shown == message
    ensures !Truthy(message) ==> shown == Str(DefaultRegistrationError)
  {
    if Truthy(message) then message else Str(DefaultRegistrationError)
  }

  /** How the post ended: accepted, or rejected with `error.response?.data?.message`
      (Undefined when there was no response, no data or no message). */
  datatype RegisterReply = Registered | Rejected(message: Value)

  datatype RegisterField = FullNameField | UsernameField | PasswordField | ConfirmPasswordField

  class RegisterForm {
    var fullName: string
    var username: string
    var password: string
    var confirmPassword: string
    var error: Value
    var loading: bool
    var posts: seq<Record>          // bodies posted to the registration endpoint
    var navigations: seq<string>

    /** The state `useState` starts the component with. */
    constructor ()
      ensures fullName == "" && username == "" && password == "" && confirmPassword == ""
      ensures error == Str("") && !loading
      ensures posts == [] && navigations == []
    {
      fullName, username, password, confirmPassword := "", "", "", "";
      error, loading := Str(""), false;
      posts, navigations := [], [];
    }

    /** Typing into one of the four inputs. */
    method Edit(field: RegisterField, text: string)
      modifies this`fullName, this`username, this`password, this`confirmPassword
      ensures fullName == (if field == FullNameField then text else old(fullName))
      ensures username == (if field == UsernameField then text else old(username))
      ensures password == (if field == PasswordField then text else old(password))
      ensures confirmPassword == (if field == ConfirmPasswordField then text else old(confirmPassword))
    {
      match field
      case FullNameField => fullName := text;
      case UsernameField => username := text;
      case PasswordField => password := text;
      case ConfirmPasswordField => confirmPassword := text;
    }

    /** `handleSubmit`. `loading` is raised on entry and lowered on every way out. A
        mismatched confirmation sets the mismatch error and posts nothing; otherwise
        the body is posted once, and the reply decides between going to the login page
        (the error is left as it was) and showing the server's message. */
    method HandleSubmit(reply: RegisterReply)
      modifies this`error, this`loading, this`posts, this`navigations
      ensures !loading
      ensures password != confirmPassword ==>
        error == Str(MismatchError) && posts == old(posts) && navigations == old(navigations)
      ensures password == confirmPassword ==>
        posts == old(posts) + [RegisterBody(fullName, username, password)]
      ensures password == confirmPassword && reply.Registered? ==>
        error == old(error) && navigations == old(navigations) + [LoginPath]
      ensures password == confirmPassword && reply.Rejected? ==>
        error == RegistrationError(reply.message) && navigations == old(navigations)
    {
      loading := true;
      if password != confirmPassword {
        error := Str(MismatchError);
        loading := false;
        return;
      }
      posts := posts + [RegisterBody(fullName, username, password)];
      match reply
      case Registered =>
        loading := false;
        navigations := navigations + [LoginPath];
      case Rejected(message) =>
        error := RegistrationError(message);
        loading := false;
    }
  }
}
