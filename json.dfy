/**
 * The JSON values of `serde_json::Value`. Numbers stay abstract: a number is
 * kept as the literal that denotes it, so no floating-point value is modelled.
 */
module Json {
  import opened Wrappers

  datatype Value =
    | Null
    | Bool(b: bool)
    | Number(literal: string)
    | String(s: string)
    | Array(items: seq<Value>)
    | Object(fields: map<string, Value>)

  /** `serde_json::from_str`, which the key/value builder takes as a parameter. */
  type Parser = string -> Option<Value>

  /** The leaf stored for a raw value: its parse, or the raw text as a string. */
  function Leaf(parse: Parser, raw: string): Value {
    match parse(raw)
    case Some(v) => v
    case None => String(raw)
  }

  // A reference parser for the scalar part of JSON (sections 2, 3, 6 and 7 of RFC 8259),
  // used to state the type-inference examples about concrete inputs.

  predicate IsWhitespace(c: char) {
    c == ' ' || c == '\t' || c == '\n' || c == '\r'
  }

  function TrimStart(s: string): (r: string)
    ensures |r| <= |s| && r == s[|s| - |r|..]
    ensures r == [] || !IsWhitespace(r[0])
    ensures forall k :: 0 <= k < |s| - |r| ==> IsWhitespace(s[k])
  {
    if s != [] && IsWhitespace(s[0]) then TrimStart(s[1..]) else s
  }

  function TrimEnd(s: string): (r: string)
    ensures |r| <= |s| && r == s[..|r|]
    ensures r == [] || !IsWhitespace(r[|r| - 1])
    ensures forall k :: |r| <= k < |s| ==> IsWhitespace(s[k])
  {
    if s != [] && IsWhitespace(s[|s| - 1]) then TrimEnd(s[..|s| - 1]) else s
  }

  predicate IsDigit(c: char) {
    '0' <= c <= '9'
  }

  /** End of the run of digits that starts at `i`. */
  function Digits(s: string, i: nat): (j: nat)
    requires i <= |s|
    ensures i <= j <= |s|
    ensures forall k :: i <= k < j ==> IsDigit(s[k])
    ensures j == |s| || !IsDigit(s[j])
    decreases |s| - i
  {
    if i < |s| && IsDigit(s[i]) then Digits(s, i + 1) else i
  }

  /** `int = zero / ( digit1-9 *DIGIT )` */
  function ScanInt(s: string, i: nat): (r: Option<nat>)
    requires i <= |s|
    ensures r.Some? ==> i < r.value <= |s| && IsDigit(s[i]) && IsDigit(s[r.value - 1])
    ensures r.None? <==> !(i < |s| && IsDigit(s[i]))
    ensures r.Some? ==> r.value == if s[i] == '0' then i + 1 else Digits(s, i)
  {
    if i < |s| && s[i] == '0' then Some(i + 1)
    else if i < |s| && '1' <= s[i] <= '9' then Some(Digits(s, i + 1))
    else None
  }

  /** `[ frac ]`, `frac = "." 1*DIGIT` */
  function ScanFrac(s: string, i: nat): (r: Option<nat>)
    requires i <= |s|
    ensures r.Some? ==> i <= r.value <= |s| && (r.value == i || IsDigit(s[r.value - 1]))
    ensures r.None? <==> i < |s| && s[i] == '.' && !(i + 1 < |s| && IsDigit(s[i + 1]))
    ensures r.Some? ==> r.value == if i < |s| && s[i] == '.' then Digits(s, i + 1) else i
  {
    if i < |s| && s[i] == '.' then
      var j := Digits(s, i + 1);
      if j > i + 1 then Some(j) else None
    else Some(i)
  }

  /** `[ exp ]`, `exp = ("e" / "E") [ "-" / "+" ] 1*DIGIT` */
  function ScanExp(s: string, i: nat): (r: Option<nat>)
    requires i <= |s|
    ensures r.Some? ==> i <= r.value <= |s| && (r.value == i || IsDigit(s[r.value - 1]))
    ensures var k := if i + 1 < |s| && (s[i + 1] == '+' || s[i + 1] == '-') then i + 2 else i + 1;
      && (r.None? <==> i < |s| && (s[i] == 'e' || s[i] == 'E') && !(k < |s| && IsDigit(s[k])))
      && (r.Some? ==> r.value == if i < |s| && (s[i] == 'e' || s[i] == 'E') then Digits(s, k) else i)
  {
    if i < |s| && (s[i] == 'e' || s[i] == 'E') then
      var k := if i + 1 < |s| && (s[i + 1] == '+' || s[i + 1] == '-') then i + 2 else i + 1;
      var j := Digits(s, k);
      if j > k then Some(j) else None
    else Some(i)
  }

  /** `number = [ minus ] int [ frac ] [ exp ]`, covering the whole string. */
  predicate IsNumber(s: string) {
    var i := if 0 < |s| && s[0] == '-' then 1 else 0;
    match ScanInt(s, i)
    case None => false
    case Some(a) =>
      a <= |s| &&
      match ScanFrac(s, a)
      case None => false
      case Some(b) =>
        match ScanExp(s, b)
        case None => false
        case Some(c) => c == |s|
  }

  /** A string literal without escapes. */
  predicate IsPlainString(s: string) {
    && |s| >= 2 && s[0] == '"' && s[|s| - 1] == '"'
    && forall i :: 1 <= i < |s| - 1 ==> s[i] != '"' && s[i] != '\\' && s[i] >= ' '
  }

  /**
   * Parses the scalar literals: `true`, `false`, `null`, numbers and string
   * literals without escapes, surrounded by optional whitespace.
   */
  function ScalarParse(raw: string): (r: Option<Value>)
    ensures r.Some? ==> !r.value.Object? && !r.value.Array?
  {
    var t := TrimEnd(TrimStart(raw));
    if t == "true" then Some(Bool(true))
    else if t == "false" then Some(Bool(false))
    else if t == "null" then Some(Null)
    else if IsNumber(t) then Some(Number(t))
    else if IsPlainString(t) then Some(String(t[1..|t| - 1]))
    else None
  }

  lemma TrimUntouched(s: string)
    requires s != [] && !IsWhitespace(s[0]) && !IsWhitespace(s[|s| - 1])
    ensures TrimEnd(TrimStart(s)) == s
  {
  }

  /** Text that cannot begin a JSON scalar other than a literal keyword is stored as a string. */
  lemma LeafOfWord(t: string)
    requires t != [] && !IsWhitespace(t[0]) && !IsWhitespace(t[|t| - 1])
    requires t[0] != '-' && t[0] != '"' && !IsDigit(t[0])
    requires t != "true" && t != "false" && t != "null"
    ensures Leaf(ScalarParse, t) == String(t)
  {
    WordRejected(t);
  }

  lemma WordRejected(t: string)
    requires t != [] && !IsWhitespace(t[0]) && !IsWhitespace(t[|t| - 1])
    requires t[0] != '-' && t[0] != '"' && !IsDigit(t[0])
    requires t != "true" && t != "false" && t != "null"
    ensures ScalarParse(t) == None
  {
    TrimUntouched(t);
    NotNumber(t);
    ParseRejects(t);
  }

  lemma NotNumber(t: string)
    requires t != [] && t[0] != '-' && !IsDigit(t[0])
    ensures !IsNumber(t)
  {
    assert ScanInt(t, 0).None?;
  }

  lemma ParseRejects(t: string)
    requires TrimEnd(TrimStart(t)) == t && t != [] && t[0] != '"'
    requires t != "true" && t != "false" && t != "null" && !IsNumber(t)
    ensures ScalarParse(t) == None
  {
    assert !IsPlainString(t);
  }

  /** A number literal is stored as a number. */
  lemma LeafOfNumber(t: string)
    requires IsNumber(t)
    ensures Leaf(ScalarParse, t) == Number(t)
  {
    NumberEnds(t);
    TrimUntouched(t);
    NumberNotKeyword(t);
    NotKeywordParses(t);
  }

  /** A number starts with `-` or a digit and ends with a digit. */
  lemma NumberEnds(t: string)
    requires IsNumber(t)
    ensures t != [] && (t[0] == '-' || IsDigit(t[0])) && IsDigit(t[|t| - 1])
  {
  }

  lemma NumberNotKeyword(t: string)
    requires IsNumber(t)
    ensures t != "true" && t != "false" && t != "null"
  {
    NumberEnds(t);
    assert "true"[0] == 't' && "false"[0] == 'f' && "null"[0] == 'n';
  }

  lemma NotKeywordParses(t: string)
    requires IsNumber(t) && TrimEnd(TrimStart(t)) == t
    requires t != "true" && t != "false" && t != "null"
    ensures ScalarParse(t) == Some(Number(t))
  {
  }

  // The type-inference cases of `test_build_map_bool` (src/main.rs:279-294).

  lemma LeafTrue()
    ensures Leaf(ScalarParse, "true") == Bool(true)
  {
    TrimUntouched("true");
  }

  lemma LeafWord()
    ensures Leaf(ScalarParse, "abc123") == String("abc123")
  {
    LeafOfWord("abc123");
  }

  lemma LeafBrace()
    ensures Leaf(ScalarParse, "{") == String("{")
  {
    LeafOfWord("{");
  }

  lemma LeafInteger()
    ensures Leaf(ScalarParse, "5") == Number("5")
  {
    assert Digits("5", 1) == 1;
    assert IsNumber("5");
    LeafOfNumber("5");
  }

  lemma LeafDecimal()
    ensures Leaf(ScalarParse, "-5.5") == Number("-5.5")
  {
    DecimalIsNumber();
    LeafOfNumber("-5.5");
  }

  lemma DecimalIsNumber()
    ensures IsNumber("-5.5")
  {
    assert Digits("-5.5", 2) == 2;
    assert Digits("-5.5", 4) == 4;
    assert Digits("-5.5", 3) == 4;
    assert ScanInt("-5.5", 1) == Some(2);
    assert ScanFrac("-5.5", 2) == Some(4);
  }
}
