/**
 * Header assembly (src/main.rs:145-169, 203-205, 212-213): an append-only,
 * ordered list of (name, value) pairs that is never deduplicated.
 */
module Headers {
  import opened Wrappers
  import opened Text

  datatype Header = Header(name: string, value: string)

  const JsonAccept := Header("Accept", "application/json")
  const FormContentType := Header("Content-Type", "application/x-www-form-urlencoded")
  const FormAccept := Header("Accept", "*/*")

  /** The explicit `-H` headers, already split into name and value. */
  function FromPairs(ps: seq<(string, string)>): (r: seq<Header>)
    ensures |r| == |ps|
    ensures forall i :: 0 <= i < |r| ==> r[i].name == ps[i].0 && r[i].value == ps[i].1
  {
    seq(|ps|, i requires 0 <= i < |ps| => Header(ps[i].0, ps[i].1))
  }

  /** The `--bearer`, `--token` and `--user` shortcuts, each one only when given. */
  function Shortcuts(bearer: Option<string>, token: Option<string>, user: Option<string>,
                     base64: string -> string): (r: seq<Header>)
    ensures |r| == (if bearer.Some? then 1 else 0) + (if token.Some? then 1 else 0) + (if user.Some? then 1 else 0)
    ensures forall i :: 0 <= i < |r| ==> r[i].name == "Authorization"
    ensures var b := if bearer.Some? then 1 else 0;
            var t := if token.Some? then 1 else 0;
            && (bearer.Some? ==> r[0].value == "Bearer " + bearer.value)
            && (token.Some? ==> r[b].value == "Token " + token.value)
            && (user.Some? ==> r[b + t].value == "Basic " + base64(user.value))
  {
    (if bearer.Some? then [Header("Authorization", "Bearer " + bearer.value)] else [])
    + (if token.Some? then [Header("Authorization", "Token " + token.value)] else [])
    + (if user.Some? then [Header("Authorization", "Basic " + base64(user.value))] else [])
  }

  /** All cookies in one `Cookie` header, joined by `; `, when there are any. */
  function CookieHeader(cookies: seq<string>): (r: seq<Header>)
    ensures |r| == (if cookies == [] then 0 else 1)
    ensures forall i :: 0 <= i < |r| ==> r[i].name == "Cookie" && cookies[0] <= r[i].value
  {
    if cookies == [] then [] else [Header("Cookie", Join(cookies, "; "))]
  }

  /** Some header is named `accept`, ignoring case. */
  predicate HasAccept(hs: seq<Header>) {
    exists i :: 0 <= i < |hs| && Lower(hs[i].name) == "accept"
  }

  /** The header list in the order the program pushes its entries. */
  function Assembled(explicit: seq<Header>, bearer: Option<string>, token: Option<string>, user: Option<string>,
                     cookies: seq<string>, hasJson: bool, hasForm: bool, base64: string -> string): (r: seq<Header>)
    ensures explicit <= r
  {
    var base := explicit + Shortcuts(bearer, token, user, base64) + CookieHeader(cookies);
    base
    + (if hasJson && !HasAccept(base) then [JsonAccept] else [])
    + (if hasForm then [FormContentType, FormAccept] else [])
  }

  /** Number of headers named exactly `name`. */
  function Count(hs: seq<Header>, name: string): nat
    decreases |hs|
  {
    if hs == [] then 0
    else (if hs[0].name == name then 1 else 0) + Count(hs[1..], name)
  }

  lemma {:induction false} CountConcat(a: seq<Header>, b: seq<Header>, name: string)
    ensures Count(a + b, name) == Count(a, name) + Count(b, name)
    decreases |a|
  {
    if a != [] {
      assert (a + b)[1..] == a[1..] + b;
      CountConcat(a[1..], b, name);
    } else {
      assert a + b == b;
    }
  }

  lemma NotAccept()
    ensures Lower("Authorization") != "accept"
    ensures Lower("Cookie") != "accept"
  {
    assert Lower("Cookie")[0] == 'c';
  }

  /** Only an explicit header can make the JSON body's `Accept` header unnecessary. */
  lemma AcceptOnlyFromExplicit(explicit: seq<Header>, bearer: Option<string>, token: Option<string>,
                               user: Option<string>, cookies: seq<string>, base64: string -> string)
    ensures HasAccept(explicit + Shortcuts(bearer, token, user, base64) + CookieHeader(cookies)) <==> HasAccept(explicit)
  {
    var auth := Shortcuts(bearer, token, user, base64);
    NotAccept();
    assert !HasAccept(auth);
    assert !HasAccept(CookieHeader(cookies));
    HasAcceptConcat(explicit, auth);
    HasAcceptConcat(explicit + auth, CookieHeader(cookies));
  }

  lemma HasAcceptConcat(a: seq<Header>, b: seq<Header>)
    ensures HasAccept(a + b) <==> HasAccept(a) || HasAccept(b)
  {
    if HasAccept(a + b) {
      var i :| 0 <= i < |a + b| && Lower((a + b)[i].name) == "accept";
      if i >= |a| {
        assert (a + b)[i] == b[i - |a|];
      }
    }
    if HasAccept(a) {
      var i :| 0 <= i < |a| && Lower(a[i].name) == "accept";
      assert (a + b)[i] == a[i];
    }
    if HasAccept(b) {
      var i :| 0 <= i < |b| && Lower(b[i].name) == "accept";
      assert (a + b)[|a| + i] == b[i];
    }
  }

  /**
   * The order of the list: explicit headers, then the shortcuts, then the
   * cookie header, then `Accept: application/json` exactly when there is a JSON
   * body and no explicit header is named `accept` in any case, then the two
   * form headers when there is a form body.
   */
  lemma Order(explicit: seq<Header>, bearer: Option<string>, token: Option<string>, user: Option<string>,
              cookies: seq<string>, hasJson: bool, hasForm: bool, base64: string -> string)
    ensures var hs := Assembled(explicit, bearer, token, user, cookies, hasJson, hasForm, base64);
            var auth := Shortcuts(bearer, token, user, base64);
            var n := |explicit| + |auth| + |CookieHeader(cookies)|;
            var accept := hasJson && !HasAccept(explicit);
            && |hs| == n + (if accept then 1 else 0) + (if hasForm then 2 else 0)
            && hs[..|explicit|] == explicit
            && hs[|explicit|..|explicit| + |auth|] == auth
            && hs[|explicit| + |auth|..n] == CookieHeader(cookies)
            && (accept ==> hs[n] == JsonAccept)
            && (hasForm ==> hs[|hs| - 2..] == [FormContentType, FormAccept])
  {
    AcceptOnlyFromExplicit(explicit, bearer, token, user, cookies, base64);
    var hs := Assembled(explicit, bearer, token, user, cookies, hasJson, hasForm, base64);
    var auth := Shortcuts(bearer, token, user, base64);
    var base := explicit + auth + CookieHeader(cookies);
    assert hs[..|base|] == base;
    assert base[..|explicit|] == explicit;
    assert base[|explicit|..|explicit| + |auth|] == auth;
    assert base[|explicit| + |auth|..] == CookieHeader(cookies);
  }

  lemma CountOne(h: Header, name: string)
    ensures Count([h], name) == if h.name == name then 1 else 0
  {
    assert [h][1..] == [];
  }

  /** Each shortcut given adds one `Authorization` header. */
  lemma ShortcutsCount(bearer: Option<string>, token: Option<string>, user: Option<string>, base64: string -> string)
    ensures Count(Shortcuts(bearer, token, user, base64), "Authorization")
         == (if bearer.Some? then 1 else 0) + (if token.Some? then 1 else 0) + (if user.Some? then 1 else 0)
    ensures Count(Shortcuts(bearer, token, user, base64), "Cookie") == 0
  {
    var b := if bearer.Some? then [Header("Authorization", "Bearer " + bearer.value)] else [];
    var t := if token.Some? then [Header("Authorization", "Token " + token.value)] else [];
    var u := if user.Some? then [Header("Authorization", "Basic " + base64(user.value))] else [];
    assert Shortcuts(bearer, token, user, base64) == b + t + u;
    if bearer.Some? { CountOne(b[0], "Authorization"); CountOne(b[0], "Cookie"); }
    if token.Some? { CountOne(t[0], "Authorization"); CountOne(t[0], "Cookie"); }
    if user.Some? { CountOne(u[0], "Authorization"); CountOne(u[0], "Cookie"); }
    CountConcat(b, t, "Authorization");
    CountConcat(b + t, u, "Authorization");
    CountConcat(b, t, "Cookie");
    CountConcat(b + t, u, "Cookie");
  }

  /** Counting over the five parts of the list. */
  lemma CountParts(explicit: seq<Header>, bearer: Option<string>, token: Option<string>,
                   user: Option<string>, cookies: seq<string>, hasJson: bool, hasForm: bool,
                   base64: string -> string, name: string)
    requires name != "Accept" && name != "Content-Type"
    ensures Count(Assembled(explicit, bearer, token, user, cookies, hasJson, hasForm, base64), name)
         == Count(explicit, name) + Count(Shortcuts(bearer, token, user, base64), name) + Count(CookieHeader(cookies), name)
  {
    var auth := Shortcuts(bearer, token, user, base64);
    var cookie := CookieHeader(cookies);
    var base := explicit + auth + cookie;
    var j := if hasJson && !HasAccept(base) then [JsonAccept] else [];
    var f := if hasForm then [FormContentType, FormAccept] else [];
    assert Assembled(explicit, bearer, token, user, cookies, hasJson, hasForm, base64) == base + j + f;
    NoneNamed(j, name);
    NoneNamed(f, name);
    CountConcat(explicit, auth, name);
    CountConcat(explicit + auth, cookie, name);
    CountConcat(base, j, name);
    CountConcat(base + j, f, name);
  }

  /**
   * Shortcuts are appended and never replace anything: the `Authorization`
   * headers are the explicit ones plus one per shortcut given.
   */
  lemma AuthorizationNotDeduplicated(explicit: seq<Header>, bearer: Option<string>, token: Option<string>,
                                     user: Option<string>, cookies: seq<string>, hasJson: bool, hasForm: bool,
                                     base64: string -> string)
    ensures Count(Assembled(explicit, bearer, token, user, cookies, hasJson, hasForm, base64), "Authorization")
         == Count(explicit, "Authorization")
            + (if bearer.Some? then 1 else 0) + (if token.Some? then 1 else 0) + (if user.Some? then 1 else 0)
  {
    CountParts(explicit, bearer, token, user, cookies, hasJson, hasForm, base64, "Authorization");
    ShortcutsCount(bearer, token, user, base64);
    if cookies != [] {
      CountOne(Header("Cookie", Join(cookies, "; ")), "Authorization");
    }
  }

  /** One `Cookie` header is added for all cookies, holding them joined by `; `. */
  lemma CookiesJoinedOnce(explicit: seq<Header>, bearer: Option<string>, token: Option<string>, user: Option<string>,
                          cookies: seq<string>, hasJson: bool, hasForm: bool, base64: string -> string)
    ensures Count(Assembled(explicit, bearer, token, user, cookies, hasJson, hasForm, base64), "Cookie")
         == Count(explicit, "Cookie") + (if cookies == [] then 0 else 1)
    ensures cookies != [] ==>
      Assembled(explicit, bearer, token, user, cookies, hasJson, hasForm, base64)[|explicit| + |Shortcuts(bearer, token, user, base64)|]
        == Header("Cookie", Join(cookies, "; "))
  {
    CountParts(explicit, bearer, token, user, cookies, hasJson, hasForm, base64, "Cookie");
    ShortcutsCount(bearer, token, user, base64);
    if cookies != [] {
      CountOne(Header("Cookie", Join(cookies, "; ")), "Cookie");
    }
  }

  lemma {:induction false} NoneNamed(hs: seq<Header>, name: string)
    requires forall i :: 0 <= i < |hs| ==> hs[i].name != name
    ensures Count(hs, name) == 0
    decreases |hs|
  {
    if hs != [] {
      NoneNamed(hs[1..], name);
    }
  }

  /** A bearer token and an explicit `Authorization` header are both sent, explicit first. */
  lemma BearerAndExplicitKept(base64: string -> string)
    ensures Assembled([Header("Authorization", "Y")], Some("X"), None, None, [], false, false, base64)
         == [Header("Authorization", "Y"), Header("Authorization", "Bearer X")]
  {
    NotAccept();
    var base := [Header("Authorization", "Y"), Header("Authorization", "Bearer X")];
    assert "Bearer " + "X" == "Bearer X";
    assert Shortcuts(Some("X"), None, None, base64) == [Header("Authorization", "Bearer X")];
    assert !HasAccept(base);
  }
}
