/**
 * The credential gate at the top of the handler: a GET request takes its
 * credentials from the query, any other from the body, and a GET or POST
 * request that lacks one is answered 400 before anything else happens.
 */
module CredentialGate {
  import opened Wrappers
  import opened Errors

  /** The request method; `OtherMethod` carries any name but `GET` and `POST`,
      which are `Get` and `Post`. */
  datatype Method = Get | Post | OtherMethod(name: string)

  /** The parts of the incoming request the handler reads; query and body
      parameters are single strings. */
  datatype Request = Request(verb: Method, query: map<string, string>, body: map<string, string>,
                             host: string, url: string)

  /** The credentials as JavaScript values: `None` is `undefined`, possible
      only for a method other than GET and POST. */
  datatype Credentials = Credentials(username: Option<string>, password: Option<string>)

  const MissingLabel := "Missing Credentials"

  /** JavaScript truthiness of a parameter: present and not empty. */
  predicate Provided(params: map<string, string>, key: string) {
    key in params && params[key] != ""
  }

  predicate LacksCredentials(params: map<string, string>) {
    !Provided(params, "username") || !Provided(params, "password")
  }

  function Lookup(params: map<string, string>, key: string): Option<string> {
    if key in params then Some(params[key]) else None
  }

  /** The 400 reply to a GET request without credentials, with a usage example. */
  function MissingFromQuery(req: Request): Failure {
    Failure(400, MissingLabel,
            "Please provide both 'username' and 'password' as query parameters.",
            Some(req.host + req.url + "?username=YOUR_STUDENT_ID&password=YOUR_PASSWORD"))
  }

  /** The 400 reply to a POST request without credentials. */
  const MissingFromBody :=
    Failure(400, MissingLabel, "Please provide both 'username' and 'password' as POST parameters.", None)

  /** The credential check and the choice of where the credentials come from. */
  function CheckCredentials(req: Request): (r: Result<Credentials, Failure>)
    ensures r.Err? <==> (req.verb == Get && LacksCredentials(req.query))
                        || (req.verb == Post && LacksCredentials(req.body))
    ensures r.Err? ==> r.error.status == 400 && r.error.error == MissingLabel
    ensures r.Ok? && req.verb == Get ==>
              && Provided(req.query, "username") && r.value.username == Some(req.query["username"])
              && Provided(req.query, "password") && r.value.password == Some(req.query["password"])
    ensures r.Ok? && req.verb == Post ==>
              && Provided(req.body, "username") && r.value.username == Some(req.body["username"])
              && Provided(req.body, "password") && r.value.password == Some(req.body["password"])
    ensures r.Ok? && req.verb.OtherMethod? ==>
              r.value == Credentials(Lookup(req.body, "username"), Lookup(req.body, "password"))
  {
    if req.verb == Get && LacksCredentials(req.query) then Err(MissingFromQuery(req))
    else if req.verb == Post && LacksCredentials(req.body) then Err(MissingFromBody)
    else
      var params := if req.verb == Get then req.query else req.body;
      Ok(Credentials(Lookup(params, "username"), Lookup(params, "password")))
  }
}
