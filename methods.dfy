/** HTTP method selection (src/main.rs:172-180). */
module Methods {
  import opened Wrappers
  import opened Text

  /** The nine standard methods, and any other token as an extension method. */
  datatype Method = GET | POST | PUT | DELETE | PATCH | HEAD | OPTIONS | TRACE | CONNECT
                  | Extension(token: string)

  function Name(m: Method): string {
    match m
    case GET => "GET"
    case POST => "POST"
    case PUT => "PUT"
    case DELETE => "DELETE"
    case PATCH => "PATCH"
    case HEAD => "HEAD"
    case OPTIONS => "OPTIONS"
    case TRACE => "TRACE"
    case CONNECT => "CONNECT"
    case Extension(t) => t
  }

  /** `tchar` of section 5.6.2 of RFC 9110. */
  predicate IsTokenChar(c: char) {
    || 'A' <= c <= 'Z' || 'a' <= c <= 'z' || '0' <= c <= '9'
    || c == '!' || c == '#' || c == '$' || c == '%' || c == '&' || c == '\'' || c == '*'
    || c == '+' || c == '-' || c == '.' || c == '^' || c == '_' || c == '`' || c == '|' || c == '~'
  }

  /** `token = 1*tchar`: what `Method::from_str` accepts. */
  predicate IsToken(s: string) {
    s != [] && forall i :: 0 <= i < |s| ==> IsTokenChar(s[i])
  }

  /**
   * `Method::from_str`: a standard name gives that method, any other token an
   * extension method, and anything else is rejected.
   */
  function FromName(s: string): (r: Option<Method>)
    ensures r.None? <==> !IsToken(s)
    ensures r.Some? ==> Name(r.value) == s
    ensures r.Some? && r.value.Extension? ==> forall m: Method :: !m.Extension? ==> Name(m) != s
  {
    if s == "GET" then Some(GET)
    else if s == "POST" then Some(POST)
    else if s == "PUT" then Some(PUT)
    else if s == "DELETE" then Some(DELETE)
    else if s == "PATCH" then Some(PATCH)
    else if s == "HEAD" then Some(HEAD)
    else if s == "OPTIONS" then Some(OPTIONS)
    else if s == "TRACE" then Some(TRACE)
    else if s == "CONNECT" then Some(CONNECT)
    else if IsToken(s) then Some(Extension(s))
    else None
  }

  /** Every standard method is found under its own name. */
  lemma StandardRoundTrip(m: Method)
    requires !m.Extension?
    ensures FromName(Name(m)) == Some(m)
  {
  }

  /** A token that is no standard name is found as that extension method. */
  lemma ExtensionRoundTrip(t: string)
    requires IsToken(t) && forall m: Method :: !m.Extension? ==> Name(m) != t
    ensures FromName(Name(Extension(t))) == Some(Extension(t))
  {
    assert Name(GET) != t && Name(POST) != t && Name(PUT) != t && Name(DELETE) != t && Name(PATCH) != t;
    assert Name(HEAD) != t && Name(OPTIONS) != t && Name(TRACE) != t && Name(CONNECT) != t;
  }

  /**
   * An explicit method is upper-cased and must be a token, otherwise the
   * program panics; the error carries the given text to say which input
   * caused it. Without one, a JSON or form body means POST and anything else GET.
   */
  function Infer(explicit: Option<string>, hasJson: bool, hasForm: bool): (r: Result<Method, string>)
    ensures explicit.Some? && r.Ok? ==> Name(r.value) == Upper(explicit.value)
    ensures explicit.Some? && r.Ok? && r.value.Extension? ==>
              forall m: Method :: !m.Extension? ==> Name(m) != Upper(explicit.value)
    ensures explicit.Some? ==> (r.Err? <==> !IsToken(Upper(explicit.value)))
    ensures explicit.Some? && r.Err? ==> r.error == explicit.value
    ensures explicit.None? ==> r.Ok? && (r.value == POST <==> hasJson || hasForm) && (r.value == GET <==> !hasJson && !hasForm)
  {
    match explicit
    case Some(v) =>
      (match FromName(Upper(v))
       case Some(m) => Ok(m)
       case None => Err(v))
    case None => if hasJson || hasForm then Ok(POST) else Ok(GET)
  }

  /** An explicit standard name gives the standard method, never an extension method of that name. */
  lemma InferStandard(v: string, m: Method, hasJson: bool, hasForm: bool)
    requires !m.Extension? && Name(m) == Upper(v)
    ensures Infer(Some(v), hasJson, hasForm) == Ok(m)
  {
    StandardRoundTrip(m);
  }

  /** An explicit method overrides the body flags entirely. */
  lemma ExplicitIgnoresBody(v: string, j1: bool, f1: bool, j2: bool, f2: bool)
    ensures Infer(Some(v), j1, f1) == Infer(Some(v), j2, f2)
  {
  }

  /** Matching is case-insensitive: lower-casing the flag chooses the same method. */
  lemma CaseInsensitive(v: string, hasJson: bool, hasForm: bool)
    ensures Infer(Some(Lower(v)), hasJson, hasForm).Ok? == Infer(Some(v), hasJson, hasForm).Ok?
    ensures Infer(Some(v), hasJson, hasForm).Ok? ==>
              Infer(Some(Lower(v)), hasJson, hasForm).value == Infer(Some(v), hasJson, hasForm).value
  {
    UpperOfLower(v);
  }

  /** Upper-casing keeps a name a token exactly when it was one. */
  lemma UpperKeepsToken(v: string)
    ensures IsToken(Upper(v)) <==> IsToken(v)
  {
    if IsToken(v) {
      forall i | 0 <= i < |v| ensures IsTokenChar(Upper(v)[i]) {
        assert IsTokenChar(v[i]);
      }
    }
    if IsToken(Upper(v)) {
      forall i | 0 <= i < |v| ensures IsTokenChar(v[i]) {
        assert IsTokenChar(Upper(v)[i]);
      }
    }
  }

  lemma Examples()
    ensures Infer(None, true, false) == Ok(POST)
    ensures Infer(None, false, true) == Ok(POST)
    ensures Infer(None, false, false) == Ok(GET)
    ensures Infer(Some("put"), false, false) == Ok(PUT)
    ensures Infer(Some("GE T"), true, false) == Err("GE T")
    ensures Infer(Some(""), false, false) == Err("")
  {
    assert Upper("put") == "PUT";
    assert Upper("GE T") == "GE T";
    assert !IsTokenChar("GE T"[2]);
  }

  /** A name outside the standard nine is sent as an extension method, upper-cased. */
  lemma ExtensionExample()
    ensures Infer(Some("purge"), false, false) == Ok(Extension("PURGE"))
  {
    assert Upper("purge") == "PURGE";
    assert IsToken("PURGE");
  }
}
