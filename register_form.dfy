/**
 * The registration form (src/pages/Auth/RegisterForm.tsx): interests are
 * toggled in and out of the selection, and submitting posts the form to
 * the registration endpoint and shows a message chosen from the reply.
 */
module RegisterForm {
  import opened Common
  import Interests

  /** The JSON body posted to the registration endpoint. */
  datatype RegisterBody = RegisterBody(fullname: string, email: string, password: string, intereses: seq<string>)

  /**
   * How the request settled: `fetch` or `response.json()` rejected, or a
   * response arrived with its `ok` flag and the body's `message` and
   * `error` fields.
   */
  datatype RegisterReply = ConnectionFailed | Response(ok: bool, message: Option<string>, error: Option<string>)

  /** `data.message || data.error || "Error al registrar"` */
  function FailureMessage(message: Option<string>, error: Option<string>): (m: string)
    ensures Truthy(message) ==> m == message.value
    ensures !Truthy(message) && Truthy(error) ==> m == error.value
    ensures !Truthy(message) && !Truthy(error) ==> m == "Error al registrar"
    ensures m != ""
  {
    OrElse(message, OrElse(error, "Error al registrar"))
  }

  /** The message the form ends up showing after a submit. */
  function RegisterMessage(reply: RegisterReply): (m: string)
    ensures reply.ConnectionFailed? ==> m == "Error al conectar con el servidor."
    ensures reply.Response? && reply.ok ==> m == "Usuario registrado con éxito"
    ensures reply.Response? && !reply.ok ==> m == FailureMessage(reply.message, reply.error)
  {
    match reply
    case ConnectionFailed => "Error al conectar con el servidor."
    case Response(ok, message, error) => if ok then "Usuario registrado con éxito" else FailureMessage(message, error)
  }

  /** The form's state cells; `location` is where the page navigated, if it did. */
  class Form {
    var fullName: string
    var email: string
    var password: string
    var selectedInterests: seq<string>
    var mensaje: string
    var location: Option<string>

    constructor ()
      ensures fullName == "" && email == "" && password == "" && selectedInterests == []
      ensures mensaje == "" && location == None
    {
      fullName := "";
      email := "";
      password := "";
      selectedInterests := [];
      mensaje := "";
      location := None;
    }

    /** `toggleInterest(interest)` */
    method ToggleInterest(interest: string)
      modifies this`selectedInterests
      ensures selectedInterests == Interests.Toggle(old(selectedInterests), interest)
      ensures interest in selectedInterests <==> interest !in old(selectedInterests)
    {
      if interest in selectedInterests {
        selectedInterests := Interests.Toggle(selectedInterests, interest);
      } else {
        selectedInterests := selectedInterests + [interest];
      }
    }

    /** `handleRegister()`: `body` is what was posted, whatever the reply. */
    method HandleRegister(reply: RegisterReply) returns (body: RegisterBody)
      modifies this`mensaje, this`location
      ensures body == RegisterBody(fullName, email, password, selectedInterests)
      ensures mensaje == RegisterMessage(reply)
      ensures location == (if reply.Response? && reply.ok then Some("/login") else old(location))
    {
      mensaje := "";
      body := RegisterBody(fullName, email, password, selectedInterests);
      match reply {
        case ConnectionFailed =>
          mensaje := "Error al conectar con el servidor.";
        case Response(ok, message, error) =>
          if ok {
            mensaje := "Usuario registrado con éxito";
            location := Some("/login");
          } else {
            mensaje := FailureMessage(message, error);
          }
      }
    }
  }
}
