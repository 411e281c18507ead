/**
 * String helpers of the request builder: splitting a `key=value` / `key:value`
 * argument at its first separator, splitting on a single character, joining,
 * and ASCII case mapping.
 */
module Text {
  import opened Wrappers

  /** The separators `split_pair` and `build_map` accept. */
  predicate IsPairSep(c: char) {
    c == '=' || c == ':'
  }

  predicate NoPairSep(s: string) {
    forall i :: 0 <= i < |s| ==> !IsPairSep(s[i])
  }

  /** Position of the first `=` or `:` in `s`, whichever comes first. */
  function FirstPairSep(s: string): (r: Option<nat>)
    ensures r.None? <==> NoPairSep(s)
    ensures r.Some? ==> r.value < |s| && IsPairSep(s[r.value]) && NoPairSep(s[..r.value])
  {
    if s == [] then None
    else if IsPairSep(s[0]) then Some(0)
    else
      match FirstPairSep(s[1..])
      case None => None
      case Some(i) =>
        assert s[..i + 1] == [s[0]] + s[1..][..i];
        Some(i + 1)
  }

  /**
   * `split_pair(pair, &['=', ':'])`: splits at the first separator into key and
   * value; the value keeps any further separators. None when there is no separator.
   */
  function SplitPair(s: string): (r: Option<(string, string)>)
    ensures r.None? <==> NoPairSep(s)
    ensures r.Some? ==>
      && NoPairSep(r.value.0)
      && |r.value.0| < |s|
      && IsPairSep(s[|r.value.0|])
      && s == r.value.0 + [s[|r.value.0|]] + r.value.1
  {
    match FirstPairSep(s)
    case None => None
    case Some(i) => Some((s[..i], s[i + 1..]))
  }

  /** The split is determined: any decomposition at a first separator is the one SplitPair finds. */
  lemma SplitPairUnique(s: string, k: string, c: char, v: string)
    requires NoPairSep(k) && IsPairSep(c) && s == k + [c] + v
    ensures SplitPair(s) == Some((k, v))
  {
    assert s[|k|] == c;
    assert !NoPairSep(s);
    var i := FirstPairSep(s).value;
    assert s[..i] == k;
    assert s[i + 1..] == v;
  }

  /** Position of the first `c` in `s`. */
  function IndexOf(s: string, c: char): (r: nat)
    requires c in s
    ensures r < |s| && s[r] == c && c !in s[..r]
  {
    if s[0] == c then 0
    else
      var i := IndexOf(s[1..], c);
      assert s[..i + 1] == [s[0]] + s[1..][..i];
      i + 1
  }

  /** `parts` joined with `sep` between consecutive elements, as Rust's `join`. */
  function Join(parts: seq<string>, sep: string): string
    decreases |parts|
  {
    if |parts| == 0 then ""
    else if |parts| == 1 then parts[0]
    else parts[0] + sep + Join(parts[1..], sep)
  }

  /**
   * `s.split(c)`: the pieces between occurrences of `c`, always at least one,
   * empty pieces included.
   */
  function SplitOn(s: string, c: char): (r: seq<string>)
    ensures |r| >= 1
    ensures forall i :: 0 <= i < |r| ==> c !in r[i]
    ensures Join(r, [c]) == s
    decreases |s|
  {
    if c !in s then [s]
    else
      var i := IndexOf(s, c);
      var rest := SplitOn(s[i + 1..], c);
      assert s == s[..i] + [c] + s[i + 1..];
      [s[..i]] + rest
  }

  lemma SplitOnNoSep(s: string, c: char)
    requires c !in s
    ensures SplitOn(s, c) == [s]
  {
  }

  /** Splitting undoes joining when no part holds the separator. */
  lemma {:induction false} SplitOnJoin(parts: seq<string>, c: char)
    requires |parts| >= 1
    requires forall i :: 0 <= i < |parts| ==> c !in parts[i]
    ensures SplitOn(Join(parts, [c]), c) == parts
    decreases |parts|
  {
    if |parts| > 1 {
      var s := Join(parts, [c]);
      var p := parts[0];
      assert s == p + [c] + Join(parts[1..], [c]);
      assert s[|p|] == c;
      var i := IndexOf(s, c);
      assert s[..i] == p;
      assert s[i + 1..] == Join(parts[1..], [c]);
      SplitOnJoin(parts[1..], c);
      assert parts == [p] + parts[1..];
    }
  }

  lemma {:induction false} JoinSnoc(parts: seq<string>, x: string, sep: string)
    requires |parts| >= 1
    ensures Join(parts + [x], sep) == Join(parts, sep) + sep + x
    decreases |parts|
  {
    if |parts| > 1 {
      assert (parts + [x])[1..] == parts[1..] + [x];
      JoinSnoc(parts[1..], x, sep);
    } else {
      assert (parts + [x])[1..] == [x];
    }
  }

  /** Appending a separator and a separator-free piece appends that piece to the split. */
  lemma SplitOnSnoc(s: string, c: char, x: string)
    requires c !in x
    ensures SplitOn(s + [c] + x, c) == SplitOn(s, c) + [x]
  {
    var parts := SplitOn(s, c);
    JoinSnoc(parts, x, [c]);
    SplitOnJoin(parts + [x], c);
  }

  function LowerChar(ch: char): char {
    if 'A' <= ch <= 'Z' then (ch as int + 32) as char else ch
  }

  function UpperChar(ch: char): char {
    if 'a' <= ch <= 'z' then (ch as int - 32) as char else ch
  }

  /** ASCII `to_lowercase`. */
  function Lower(s: string): (r: string)
    ensures |r| == |s|
    ensures forall i :: 0 <= i < |r| ==> !('A' <= r[i] <= 'Z')
  {
    seq(|s|, i requires 0 <= i < |s| => LowerChar(s[i]))
  }

  /** ASCII `to_uppercase`. */
  function Upper(s: string): (r: string)
    ensures |r| == |s|
    ensures forall i :: 0 <= i < |r| ==> !('a' <= r[i] <= 'z')
  {
    seq(|s|, i requires 0 <= i < |s| => UpperChar(s[i]))
  }

  /** Upper-casing the lower-cased string is the same as upper-casing the original. */
  lemma UpperOfLower(s: string)
    ensures Upper(Lower(s)) == Upper(s)
  {
    forall i | 0 <= i < |s|
      ensures Upper(Lower(s))[i] == Upper(s)[i]
    {
      var ch := s[i];
      assert UpperChar(LowerChar(ch)) == UpperChar(ch);
    }
  }

  /**
   * `iter.map(|v| split_pair(v, ..).expect(..)).collect()`: every string split,
   * or a panic that reports the first one without a separator.
   */
  function SplitAll(xs: seq<string>): (r: Result<seq<(string, string)>, string>)
    ensures r.Ok? <==> forall i :: 0 <= i < |xs| ==> SplitPair(xs[i]).Some?
    ensures r.Ok? ==> |r.value| == |xs| && forall i :: 0 <= i < |xs| ==> SplitPair(xs[i]) == Some(r.value[i])
    ensures r.Err? ==> r.error in xs && SplitPair(r.error).None?
    decreases |xs|
  {
    if xs == [] then Ok([])
    else
      match SplitPair(xs[0])
      case None => Err(xs[0])
      case Some(p) =>
        var rest := SplitAll(xs[1..]);
        assert forall i :: 1 <= i < |xs| ==> xs[i] == xs[1..][i - 1];
        match rest
        case Err(e) => Err(e)
        case Ok(ps) => Ok([p] + ps)
  }

  /** The string reported is the first one without a separator. */
  lemma {:induction false} SplitAllReportsFirst(xs: seq<string>)
    requires SplitAll(xs).Err?
    ensures exists i :: 0 <= i < |xs| && xs[i] == SplitAll(xs).error &&
                        forall j :: 0 <= j < i ==> SplitPair(xs[j]).Some?
    decreases |xs|
  {
    if SplitPair(xs[0]).Some? {
      SplitAllReportsFirst(xs[1..]);
      var i :| 0 <= i < |xs| - 1 && xs[1..][i] == SplitAll(xs[1..]).error &&
               forall j :: 0 <= j < i ==> SplitPair(xs[1..][j]).Some?;
      assert xs[i + 1] == SplitAll(xs).error;
      forall j | 0 <= j < i + 1 ensures SplitPair(xs[j]).Some? {
        if j > 0 {
          assert xs[j] == xs[1..][j - 1];
        }
      }
    } else {
      assert xs[0] == SplitAll(xs).error;
    }
  }
}
