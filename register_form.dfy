/**
 * The registration form of the front end: three input fields and two
 * message slots. Submitting runs a three-step check in a fixed order and
 * stops at the first failure; only when all pass is the form posted, and
 * the reply then decides which slots change.
 */
module RegisterForm {
  import opened Remote

  const MsgFillAll := "请填写所有字段"
  const MsgMismatch := "两次输入的密码不一致"
  const MsgTooShort := "密码长度至少为6位"
  const MsgRegistered := "注册成功，请返回登录"
  const MsgRetryLater := "注册失败，请稍后重试"
  /** Shortest password the form accepts. */
  const MinPasswordLength := 6

  /** The body of `POST /api/register`. */
  datatype RegisterRequest = RegisterRequest(username: string, password: string)

  /** The fields of the register reply the form reads. */
  datatype ServerReply = ServerReply(success: bool, message: Option<string>)

  /**
   * The first failing check, in order: an empty field, then differing
   * passwords, then a password shorter than six; `None` when all pass.
   */
  function Validate(username: string, password: string, confirmPassword: string): (r: Option<string>)
    ensures r == Some(MsgFillAll) <==> username == "" || password == "" || confirmPassword == ""
    ensures r == Some(MsgMismatch) <==>
      username != "" && password != "" && confirmPassword != "" && password != confirmPassword
    ensures r == Some(MsgTooShort) <==>
      username != "" && password != "" && password == confirmPassword && |password| < MinPasswordLength
    ensures r.None? <==>
      username != "" && password != "" && password == confirmPassword && |password| >= MinPasswordLength
  {
    if username == "" || password == "" || confirmPassword == "" then Some(MsgFillAll)
    else if password != confirmPassword then Some(MsgMismatch)
    else if |password| < MinPasswordLength then Some(MsgTooShort)
    else None
  }

  /** `data.message || '注册失败，请稍后重试'`. */
  function MessageOrDefault(message: Option<string>): (r: string)
    ensures r != ""
    ensures message.Some? && message.value != "" ==> r == message.value
    ensures !(message.Some? && message.value != "") ==> r == MsgRetryLater
  {
    if message.Some? && message.value != "" then message.value else MsgRetryLater
  }

  class RegisterFormView {
    var username: string
    var password: string
    var confirmPassword: string
    var error: string
    var success: string

    constructor ()
      ensures username == "" && password == "" && confirmPassword == "" && error == "" && success == ""
    {
      username, password, confirmPassword := "", "", "";
      error, success := "", "";
    }

    /**
     * `handleSubmit`: a failed check sets only `error` and posts nothing;
     * otherwise the username and password are posted and the reply decides:
     * success sets the success message, clears the error and empties the
     * fields; a refusal or a transport error sets the error (the server's
     * message if it has one) and clears the success message.
     */
    method HandleSubmit(reply: Reply<ServerReply>) returns (sent: Option<RegisterRequest>)
      modifies this
      ensures Validate(old(username), old(password), old(confirmPassword)).Some? ==>
        && sent == None
        && error == Validate(old(username), old(password), old(confirmPassword)).value
        && success == old(success)
        && username == old(username) && password == old(password) && confirmPassword == old(confirmPassword)
      ensures Validate(old(username), old(password), old(confirmPassword)).None? ==>
        && sent == Some(RegisterRequest(old(username), old(password)))
        && match reply
           case Answered(ServerReply(true, _)) =>
             success == MsgRegistered && error == ""
             && username == "" && password == "" && confirmPassword == ""
           case Answered(ServerReply(false, message)) =>
             error == MessageOrDefault(message) && success == ""
             && username == old(username) && password == old(password) && confirmPassword == old(confirmPassword)
           case NetworkError =>
             error == MsgRetryLater && success == ""
             && username == old(username) && password == old(password) && confirmPassword == old(confirmPassword)
    {
      var failure := Validate(username, password, confirmPassword);
      if failure.Some? {
        error := failure.value;
        return None;
      }
      sent := Some(RegisterRequest(username, password));
      match reply {
        case Answered(data) =>
          if data.success {
            success := MsgRegistered;
            error := "";
            username, password, confirmPassword := "", "", "";
          } else {
            error := MessageOrDefault(data.message);
            success := "";
          }
        case NetworkError =>
          error := MsgRetryLater;
          success := "";
      }
    }

    method SetUsername(text: string)
      modifies this`username
      ensures username == text
    {
      username := text;
    }

    method SetPassword(text: string)
      modifies this`password
      ensures password == text
    {
      password := text;
    }

    method SetConfirmPassword(text: string)
      modifies this`confirmPassword
      ensures confirmPassword == text
    {
      confirmPassword := text;
    }
  }
}
