/**
 * Request assembly as the body of `main` performs it (src/main.rs:130-224):
 * URL, query parameters, headers, method and body, with the panics taken in
 * the order the program reaches them.
 */
module Request {
  import opened Wrappers
  import opened Text
  import opened Json
  import opened KeyValueTree
  import opened Url
  import opened Methods
  import opened Headers

  /** The parsed command line, as far as request assembly reads it. */
  datatype Cli = Cli(
    url: string,
    params: seq<string>,
    json: Option<seq<string>>,
    form: Option<seq<string>>,
    methodName: Option<string>,
    bearer: Option<string>,
    token: Option<string>,
    user: Option<string>,
    headers: seq<string>,
    cookies: seq<string>,
    file: Option<string>)

  /** The library calls the program makes and this model does not look into. */
  datatype Foreign = Foreign(
    parse: Parser,                       // serde_json::from_str
    base64: string -> string,            // base64 STANDARD encoding (section 4 of RFC 4648)
    urlencode: Value -> Option<string>)  // serde_urlencoded::to_string

  /** What is handed to the HTTP client. */
  datatype Req = Req(
    url: string,
    httpMethod: Method,
    query: seq<(string, string)>,
    headers: seq<Header>,
    json: Option<Value>,
    form: Option<string>,
    file: Option<string>)

  /** The panics of request assembly, each with what caused it. */
  datatype Error =
    | MalformedParam(param: string)
    | MalformedHeader(header: string)
    | InvalidMethod(given: string)
    | JsonBody(cause: BuildError)
    | FormBody(cause: BuildError)
    | FormEncoding

  /** The form body's text, when both the tree and its URL encoding succeed. */
  function FormText(pairs: seq<string>, env: Foreign): Option<string> {
    match Tree(pairs, env.parse)
    case Err(_) => None
    case Ok(m) => env.urlencode(Object(m))
  }

  /** Parameters, headers and the method all pass: the program reaches the bodies. */
  predicate ArgumentsOk(cli: Cli) {
    && SplitAll(cli.params).Ok?
    && SplitAll(cli.headers).Ok?
    && Infer(cli.methodName, cli.json.Some?, cli.form.Some?).Ok?
  }

  /** There is no JSON body, or it builds. */
  predicate JsonOk(cli: Cli, env: Foreign) {
    cli.json.Some? ==> Tree(cli.json.value, env.parse).Ok?
  }

  method Assemble(cli: Cli, env: Foreign) returns (r: Result<Req, Error>)
    // the first panic the program reaches, in order: each one exactly when every earlier step passed
    ensures SplitAll(cli.params).Err? ==> r == Err(MalformedParam(SplitAll(cli.params).error))
    ensures SplitAll(cli.params).Ok? && SplitAll(cli.headers).Err? ==>
              r == Err(MalformedHeader(SplitAll(cli.headers).error))
    ensures SplitAll(cli.params).Ok? && SplitAll(cli.headers).Ok? && Infer(cli.methodName, cli.json.Some?, cli.form.Some?).Err? ==>
              r == Err(InvalidMethod(cli.methodName.value))
    ensures ArgumentsOk(cli) && cli.json.Some? && Tree(cli.json.value, env.parse).Err? ==>
              r == Err(JsonBody(Tree(cli.json.value, env.parse).error))
    ensures ArgumentsOk(cli) && JsonOk(cli, env) && cli.form.Some? && Tree(cli.form.value, env.parse).Err? ==>
              r == Err(FormBody(Tree(cli.form.value, env.parse).error))
    ensures (ArgumentsOk(cli) && JsonOk(cli, env) && cli.form.Some? && Tree(cli.form.value, env.parse).Ok?
             && env.urlencode(Object(Tree(cli.form.value, env.parse).value)).None?) ==> r == Err(FormEncoding)
    // success exactly when no step panics
    ensures r.Ok? <==> ArgumentsOk(cli) && JsonOk(cli, env) && (cli.form.Some? ==> FormText(cli.form.value, env).Some?)
    // what is sent
    ensures r.Ok? ==>
      && r.value.url == Normalized(cli.url)
      && r.value.httpMethod == Infer(cli.methodName, cli.json.Some?, cli.form.Some?).value
      && r.value.query == SplitAll(cli.params).value
      && r.value.headers == Assembled(FromPairs(SplitAll(cli.headers).value), cli.bearer, cli.token, cli.user,
                                      cli.cookies, cli.json.Some?, cli.form.Some?, env.base64)
      && (r.value.json.Some? <==> cli.json.Some?)
      && (cli.json.Some? ==> r.value.json.value == Object(Tree(cli.json.value, env.parse).value))
      && (r.value.form.Some? <==> cli.form.Some?)
      && (cli.form.Some? ==> r.value.form == FormText(cli.form.value, env))
      && r.value.file == cli.file
  {
    var url := NormalizeUrl(cli.url);

    var params := SplitAll(cli.params);
    if params.Err? {
      return Err(MalformedParam(params.error));
    }

    var explicit := SplitAll(cli.headers);
    if explicit.Err? {
      return Err(MalformedHeader(explicit.error));
    }
    var headers := PushShortcuts(FromPairs(explicit.value), cli.bearer, cli.token, cli.user, cli.cookies, env.base64);

    var chosen := Infer(cli.methodName, cli.json.Some?, cli.form.Some?);
    if chosen.Err? {
      return Err(InvalidMethod(chosen.error));
    }

    var bodies := AddBodies(cli, env, headers);
    if bodies.Err? {
      return Err(bodies.error);
    }
    assert bodies.value.headers == Assembled(FromPairs(explicit.value), cli.bearer, cli.token, cli.user,
                                             cli.cookies, cli.json.Some?, cli.form.Some?, env.base64);
    r := Ok(Req(url, chosen.value, params.value, bodies.value.headers, bodies.value.json, bodies.value.form, cli.file));
  }

  /** The bodies and the headers pushed with them. */
  datatype Bodies = Bodies(json: Option<Value>, form: Option<string>, headers: seq<Header>)

  /**
   * src/main.rs:199-213: the JSON body with its `Accept` default, then the form
   * body with its two headers, on top of the headers pushed so far.
   */
  method AddBodies(cli: Cli, env: Foreign, base: seq<Header>) returns (r: Result<Bodies, Error>)
    ensures cli.json.Some? && Tree(cli.json.value, env.parse).Err? ==>
              r == Err(JsonBody(Tree(cli.json.value, env.parse).error))
    ensures JsonOk(cli, env) && cli.form.Some? && Tree(cli.form.value, env.parse).Err? ==>
              r == Err(FormBody(Tree(cli.form.value, env.parse).error))
    ensures (JsonOk(cli, env) && cli.form.Some? && Tree(cli.form.value, env.parse).Ok?
             && env.urlencode(Object(Tree(cli.form.value, env.parse).value)).None?) ==> r == Err(FormEncoding)
    ensures r.Ok? <==> JsonOk(cli, env) && (cli.form.Some? ==> FormText(cli.form.value, env).Some?)
    ensures r.Ok? ==>
      && r.value.headers == base + (if cli.json.Some? && !HasAccept(base) then [JsonAccept] else [])
                                 + (if cli.form.Some? then [FormContentType, FormAccept] else [])
      && (r.value.json.Some? <==> cli.json.Some?)
      && (cli.json.Some? ==> r.value.json.value == Object(Tree(cli.json.value, env.parse).value))
      && (r.value.form.Some? <==> cli.form.Some?)
      && (cli.form.Some? ==> r.value.form == FormText(cli.form.value, env))
  {
    var headers := base;
    var json: Option<Value> := None;
    if cli.json.Some? {
      var obj := BuildMap(cli.json.value, env.parse);
      if obj.Err? {
        return Err(JsonBody(obj.error));
      }
      json := Some(obj.value);
      headers := PushJsonAccept(headers);
    }

    var form: Option<string> := None;
    if cli.form.Some? {
      var text := EncodeForm(cli.form.value, env);
      if text.Err? {
        return Err(text.error);
      }
      form := Some(text.value);
      headers := headers + [FormContentType, FormAccept];
    }
    r := Ok(Bodies(json, form, headers));
  }

  /** src/main.rs:209-211: the form body is built like the JSON body and then URL-encoded. */
  method EncodeForm(pairs: seq<string>, env: Foreign) returns (r: Result<string, Error>)
    ensures r.Ok? <==> FormText(pairs, env).Some?
    ensures r.Ok? ==> r.value == FormText(pairs, env).value
    ensures r.Err? ==> match Tree(pairs, env.parse)
                       case Err(e) => r.error == FormBody(e)
                       case Ok(m) => r.error == FormEncoding && env.urlencode(Object(m)).None?
  {
    var obj := BuildMap(pairs, env.parse);
    if obj.Err? {
      return Err(FormBody(obj.error));
    }
    var text := env.urlencode(obj.value);
    if text.None? {
      return Err(FormEncoding);
    }
    r := Ok(text.value);
  }

  /** src/main.rs:151-169: the three shortcuts, then the cookie header, each pushed only when given. */
  method PushShortcuts(given: seq<Header>, bearer: Option<string>, token: Option<string>, user: Option<string>,
                       cookies: seq<string>, base64: string -> string) returns (headers: seq<Header>)
    ensures headers == given + Shortcuts(bearer, token, user, base64) + CookieHeader(cookies)
  {
    headers := given;
    ghost var pushed: seq<Header> := [];
    if bearer.Some? {
      headers := headers + [Header("Authorization", "Bearer " + bearer.value)];
      pushed := pushed + [Header("Authorization", "Bearer " + bearer.value)];
    }
    assert headers == given + pushed;
    if token.Some? {
      headers := headers + [Header("Authorization", "Token " + token.value)];
      pushed := pushed + [Header("Authorization", "Token " + token.value)];
    }
    assert headers == given + pushed;
    if user.Some? {
      headers := headers + [Header("Authorization", "Basic " + base64(user.value))];
      pushed := pushed + [Header("Authorization", "Basic " + base64(user.value))];
    }
    assert headers == given + pushed && pushed == Shortcuts(bearer, token, user, base64);
    if cookies != [] {
      headers := headers + [Header("Cookie", Join(cookies, "; "))];
    }
  }

  /** src/main.rs:203-205: `Accept: application/json` unless some header is already named `accept`. */
  method PushJsonAccept(given: seq<Header>) returns (headers: seq<Header>)
    ensures headers == given + (if HasAccept(given) then [] else [JsonAccept])
  {
    headers := given;
    if !HasAccept(headers) {
      headers := headers + [JsonAccept];
    }
  }
}
