/**
 * The email sender (`EmailSender`): the validations made before anything is sent,
 * the assembly of the multipart message, and the order of the SMTP commands.
 * The SMTP exchange itself is an input: `failure` names the command that
 * raises, if any.
 */
module Email {
  import opened Wrappers
  import opened Records

  /** The SMTP calls `send_email` makes, in order. */
  datatype SmtpCommand = Connect | StartTls | Login | SendMail

  /** `MIMEText(body, subtype)`. */
  datatype Part = Part(subtype: string, body: string)

  datatype Header = Header(name: string, value: Value)

  /** A `MIMEMultipart` container with its headers and attached parts. */
  datatype Message = Message(contentType: string, headers: seq<Header>, parts: seq<Part>)

  /** The commands of a complete session; STARTTLS only when TLS is requested. */
  function Session(useTls: bool): (s: seq<SmtpCommand>)
    ensures StartTls in s <==> useTls
    ensures |s| >= 3 && s[0] == Connect && s[|s| - 1] == SendMail
  {
    [Connect] + (if useTls then [StartTls] else []) + [Login, SendMail]
  }

  /** The commands issued when `failure` raises: every command up to and including the failing one. */
  function Attempted(session: seq<SmtpCommand>, failure: Option<SmtpCommand>): (r: seq<SmtpCommand>)
    ensures |r| <= |session| && r == session[..|r|]
    ensures failure.None? || failure.value !in session ==> r == session
    ensures failure.Some? && failure.value in session ==> r != [] && r[|r| - 1] == failure.value
    ensures failure.Some? && failure.value in session ==> failure.value !in r[..|r| - 1]
  {
    if session == [] then []
    else if failure == Some(session[0]) then [session[0]]
    else [session[0]] + Attempted(session[1..], failure)
  }

  lemma AttemptedCons(c: SmtpCommand, rest: seq<SmtpCommand>, failure: Option<SmtpCommand>)
    ensures Attempted([c] + rest, failure) == if failure == Some(c) then [c] else [c] + Attempted(rest, failure)
  {
    assert ([c] + rest)[0] == c && ([c] + rest)[1..] == rest;
  }

  lemma AttemptedLastTwo(failure: Option<SmtpCommand>)
    ensures Attempted([Login, SendMail], failure) ==
      if failure == Some(Login) then [Login] else [Login, SendMail]
  {
    AttemptedCons(Login, [SendMail], failure);
    AttemptedCons(SendMail, [], failure);
    assert [Login] + [SendMail] == [Login, SendMail];
    assert [SendMail] + [] == [SendMail];
  }

  lemma AttemptedWithTls(failure: Option<SmtpCommand>)
    ensures Attempted([Connect, StartTls, Login, SendMail], failure) ==
      if failure == Some(Connect) then [Connect]
      else if failure == Some(StartTls) then [Connect, StartTls]
      else if failure == Some(Login) then [Connect, StartTls, Login]
      else [Connect, StartTls, Login, SendMail]
  {
    assert [Connect, StartTls, Login, SendMail] == [Connect] + [StartTls, Login, SendMail];
    assert [StartTls, Login, SendMail] == [StartTls] + [Login, SendMail];
    AttemptedCons(Connect, [StartTls, Login, SendMail], failure);
    AttemptedCons(StartTls, [Login, SendMail], failure);
    AttemptedLastTwo(failure);
  }

  lemma AttemptedWithoutTls(failure: Option<SmtpCommand>)
    ensures Attempted([Connect, Login, SendMail], failure) ==
      if failure == Some(Connect) then [Connect]
      else if failure == Some(Login) then [Connect, Login]
      else [Connect, Login, SendMail]
  {
    assert [Connect, Login, SendMail] == [Connect] + [Login, SendMail];
    AttemptedCons(Connect, [Login, SendMail], failure);
    AttemptedLastTwo(failure);
  }

  /** What `Attempted` gives for each way a session can fail. */
  lemma AttemptedSession(useTls: bool, failure: Option<SmtpCommand>)
    ensures var s := Session(useTls);
      Attempted(s, failure) ==
        if failure == Some(Connect) then [Connect]
        else if useTls && failure == Some(StartTls) then [Connect, StartTls]
        else if failure == Some(Login) then (if useTls then [Connect, StartTls, Login] else [Connect, Login])
        else s
  {
    if useTls {
      assert Session(useTls) == [Connect, StartTls, Login, SendMail];
      AttemptedWithTls(failure);
    } else {
      assert Session(useTls) == [Connect, Login, SendMail];
      AttemptedWithoutTls(failure);
    }
  }

  /** The attached parts: the plain-text part first, then the HTML part, each only when its body is non-empty. */
  function Parts(bodyHtml: string, bodyText: string): seq<Part> {
    (if bodyText != "" then [Part("plain", bodyText)] else [])
    + (if bodyHtml != "" then [Part("html", bodyHtml)] else [])
  }

  class EmailSender {
    const server: Value
    const port: Value
    const user: Value
    const password: Value
    const useTls: Value

    /** `EmailSender(smtp_server, smtp_port, smtp_user, smtp_password, use_tls=True)`. */
    constructor (server: Value, port: Value, user: Value, password: Value, useTls: Value := Bool(true))
      ensures this.server == server && this.port == port && this.user == user
      ensures this.password == password && this.useTls == useTls
    {
      this.server := server;
      this.port := port;
      this.user := user;
      this.password := password;
      this.useTls := useTls;
    }

    /** Server, port, user and password are all truthy. */
    predicate Configured() {
      Truthy(server) && Truthy(port) && Truthy(user) && Truthy(password)
    }

    /**
     * `send_email(to_email, subject, body_html, body_text)`. Returns whether
     * the mail went out, the message that was built (none when a check fails
     * first) and the SMTP commands issued.
     */
    method SendEmail(to: string, subject: string, bodyHtml: string, bodyText: string,
                     failure: Option<SmtpCommand>)
      returns (ok: bool, msg: Option<Message>, issued: seq<SmtpCommand>)
      // the validations come before anything is built or sent
      ensures msg.Some? <==> Configured() && (bodyText != "" || bodyHtml != "")
      ensures msg.None? ==> !ok && issued == []
      // the container and its headers
      ensures msg.Some? ==> msg.value.contentType == "multipart/alternative"
      ensures msg.Some? ==>
        msg.value.headers == [Header("Subject", Str(subject)), Header("From", user), Header("To", Str(to))]
      // the parts: plain text first, then HTML, each only when non-empty
      ensures msg.Some? ==> msg.value.parts != [] && forall p :: p in msg.value.parts ==> p.body != ""
      ensures msg.Some? ==> msg.value.parts == Parts(bodyHtml, bodyText)
      // the SMTP session
      ensures msg.Some? ==> issued == Attempted(Session(Truthy(useTls)), failure)
      ensures StartTls in issued ==> Truthy(useTls)
      ensures ok <==> msg.Some? && (failure.None? || failure.value !in Session(Truthy(useTls)))
      ensures ok ==> issued == Session(Truthy(useTls)) && issued[|issued| - 1] == SendMail
    {
      if !(Truthy(server) && Truthy(port) && Truthy(user) && Truthy(password)) {
        return false, None, [];
      }

      var headers := [Header("Subject", Str(subject))];
      headers := headers + [Header("From", user)];
      headers := headers + [Header("To", Str(to))];

      var parts: seq<Part> := [];
      if bodyText != "" {
        parts := parts + [Part("plain", bodyText)];
      }
      if bodyHtml != "" {
        parts := parts + [Part("html", bodyHtml)];
      } else if bodyText == "" {
        return false, None, [];
      }
      assert parts == Parts(bodyHtml, bodyText);
      var m := Message("multipart/alternative", headers, parts);
      msg := Some(m);

      ok, issued := Deliver(failure);
    }

    /**
     * The SMTP session of `send_email`: connect, STARTTLS when `use_tls` is
     * truthy, log in, send. The first command that raises ends it with False.
     */
    method Deliver(failure: Option<SmtpCommand>) returns (ok: bool, issued: seq<SmtpCommand>)
      ensures issued == Attempted(Session(Truthy(useTls)), failure)
      ensures StartTls in issued ==> Truthy(useTls)
      ensures ok <==> failure.None? || failure.value !in Session(Truthy(useTls))
      ensures ok ==> issued == Session(Truthy(useTls))
    {
      AttemptedSession(Truthy(useTls), failure);
      issued := [Connect];
      if failure == Some(Connect) {
        return false, issued;
      }
      if Truthy(useTls) {
        issued := issued + [StartTls];
        if failure == Some(StartTls) {
          return false, issued;
        }
      }
      issued := issued + [Login];
      if failure == Some(Login) {
        return false, issued;
      }
      issued := issued + [SendMail];
      ok := failure != Some(SendMail);
    }
  }
}
