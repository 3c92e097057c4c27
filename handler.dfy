/**
 * The request handler: the credential gate, then the three outbound calls
 * (the portal's login page, the login form, the advising list), then the
 * routine. The network is not modelled: what each call returns or throws is
 * an input, and the calls the handler makes are returned as a trace.
 */
module Handler {
  import opened Wrappers
  import opened Errors
  import opened CredentialGate
  import opened Captcha
  import opened Cookies
  import opened Schedule

  /** What an outbound call yields: its response, or what it throws. */
  datatype Outcome<+T> = Replied(value: T) | Threw(error: Thrown)

  /** The parts of the login page the handler reads: the `set-cookie`
      header lines, and the texts of the two captcha number labels and of
      the operator label (empty when a label is missing). */
  datatype LoginPage = LoginPage(setCookie: Option<seq<string>>, firstNoText: string,
                                 operatorText: string, secondNoText: string)

  /** The fields of the login form, before URL encoding. */
  datatype LoginForm = LoginForm(username: string, password: string, answer: int,
                                 firstNo: int, secondNo: int)

  /** An outbound call, with the form and the `Cookie` header it sends. */
  datatype Call = PortalGet | PortalPost(form: LoginForm, cookie: string) | AdvisingGet(cookie: string)

  /** The reply: the routine with status 200, or an error reply. */
  datatype Reply = RoutineReply(days: seq<(string, seq<Entry>)>) | ErrorReply(failure: Failure)

  const PrepFailure :=
    Failure(500, "Failed to prepare login data.", "Could not gather all necessary information for login.", None)

  /** A form parameter as URL-search-parameter construction writes it: an
      absent value becomes the text `undefined`. */
  function FormText(v: Option<string>): (t: string)
    ensures v.Some? ==> t == v.value
    ensures v.None? ==> t == "undefined"
  {
    match v
    case Some(s) => s
    case None => "undefined"
  }

  /** The captcha as the handler reads it from the login page. */
  function PageCaptcha(page: LoginPage): Result<Solved, Failure> {
    Solve(page.firstNoText, page.operatorText, page.secondNoText)
  }

  method Handle(req: Request, page: Outcome<LoginPage>, login: Outcome<Option<seq<string>>>,
                advising: Outcome<seq<CourseSlot>>)
    returns (reply: Reply, calls: seq<Call>)
    // the credential gate answers before any call is made
    ensures CheckCredentials(req).Err? ==> reply == ErrorReply(CheckCredentials(req).error) && calls == []
    ensures CheckCredentials(req).Ok? ==> 1 <= |calls| <= 3 && calls[0] == PortalGet
    // a failed login-page fetch
    ensures CheckCredentials(req).Ok? && page.Threw? ==>
              reply == ErrorReply(Classify(page.error)) && calls == [PortalGet]
    // a captcha that cannot be solved
    ensures CheckCredentials(req).Ok? && page.Replied? && PageCaptcha(page.value).Err? ==>
              reply == ErrorReply(PageCaptcha(page.value).error) && calls == [PortalGet]
    // no session cookie from the login page
    ensures CheckCredentials(req).Ok? && page.Replied? && PageCaptcha(page.value).Ok? ==>
              (reply == ErrorReply(PrepFailure) <==> CookieString(page.value.setCookie) == "")
    ensures (CheckCredentials(req).Ok? && page.Replied? && PageCaptcha(page.value).Ok?
             && CookieString(page.value.setCookie) == "") ==> calls == [PortalGet]
    // the login form carries the credentials, the solved captcha and the page's cookies
    ensures |calls| >= 2 ==>
              && CheckCredentials(req).Ok? && page.Replied? && PageCaptcha(page.value).Ok?
              && CookieString(page.value.setCookie) != ""
              && calls[1] == PortalPost(
                   LoginForm(FormText(CheckCredentials(req).value.username),
                             FormText(CheckCredentials(req).value.password),
                             PageCaptcha(page.value).value.answer,
                             PageCaptcha(page.value).value.first,
                             PageCaptcha(page.value).value.second),
                   CookieString(page.value.setCookie))
    ensures (CheckCredentials(req).Ok? && page.Replied? && PageCaptcha(page.value).Ok?
             && CookieString(page.value.setCookie) != "") ==> |calls| >= 2
    // a failed login
    ensures |calls| >= 2 && login.Threw? ==> reply == ErrorReply(Classify(login.error)) && |calls| == 2
    ensures |calls| >= 2 && login.Replied? ==> |calls| == 3
    // the advising call sends the login's cookies when it set any, else the page's
    ensures |calls| == 3 ==>
              && login.Replied?
              && calls[2] == AdvisingGet(if login.value.Some? then CookieString(login.value)
                                         else CookieString(page.value.setCookie))
    ensures |calls| == 3 && advising.Threw? ==> reply == ErrorReply(Classify(advising.error))
    // the routine is the only success reply, and it needs all three calls
    ensures reply.RoutineReply? <==> |calls| == 3 && advising.Replied?
    ensures reply.RoutineReply? ==> reply.days == WeeklyJson(advising.value)
  {
    var checked := CheckCredentials(req);
    if checked.Err? {
      return ErrorReply(checked.error), [];
    }
    var username := FormText(checked.value.username);
    var password := FormText(checked.value.password);

    calls := [PortalGet];
    if page.Threw? {
      return ErrorReply(Classify(page.error)), calls;
    }
    var cookieString := "";
    if page.value.setCookie.Some? {
      cookieString := CookieString(page.value.setCookie);
    }

    var calculated: Option<int> := None;
    var captcha := PageCaptcha(page.value);
    if captcha.Err? {
      return ErrorReply(captcha.error), calls;
    }
    calculated := Some(captcha.value.answer);
    // a solved captcha always has an answer: only the cookie test can fail here
    assert calculated.Some?;
    if calculated.None? || cookieString == "" {
      return ErrorReply(PrepFailure), calls;
    }

    var form := LoginForm(username, password, calculated.value, captcha.value.first, captcha.value.second);
    var later;
    reply, later := SignIn(form, cookieString, login, advising);
    calls := calls + later;
  }

  /** The steps after the pre-login guard: the login, the cookie string
      replaced when the login sets cookies, the advising list and the
      routine built from it. */
  method SignIn(form: LoginForm, cookieString: string, login: Outcome<Option<seq<string>>>,
                advising: Outcome<seq<CourseSlot>>)
    returns (reply: Reply, calls: seq<Call>)
    ensures 1 <= |calls| <= 2 && calls[0] == PortalPost(form, cookieString)
    ensures login.Threw? ==> reply == ErrorReply(Classify(login.error)) && |calls| == 1
    ensures login.Replied? ==>
              |calls| == 2 && calls[1] == AdvisingGet(if login.value.Some? then CookieString(login.value)
                                                      else cookieString)
    ensures login.Replied? && advising.Threw? ==> reply == ErrorReply(Classify(advising.error))
    ensures reply.RoutineReply? <==> login.Replied? && advising.Replied?
    ensures reply.RoutineReply? ==> reply.days == WeeklyJson(advising.value)
  {
    calls := [PortalPost(form, cookieString)];
    if login.Threw? {
      return ErrorReply(Classify(login.error)), calls;
    }
    var cookies := cookieString;
    if login.value.Some? {
      cookies := CookieString(login.value);
    }

    calls := calls + [AdvisingGet(cookies)];
    if advising.Threw? {
      return ErrorReply(Classify(advising.error)), calls;
    }
    var routine := BuildRoutine(advising.value);
    reply := RoutineReply(routine.Json());
  }
}
