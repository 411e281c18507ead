/**
 * What the program does with the response (src/main.rs:229-261): print it and
 * exit 1 on a failure status, save it to a file, or print it; pretty-printing
 * only JSON, and only when raw output was not asked for. Pretty-printing
 * parses the body and panics when it is not JSON.
 */
module Render {
  import opened Wrappers
  import opened Text

  datatype Outcome =
    | PrintAndExit1(pretty: bool)   // the body is printed, then exit status 1
    | SaveFile(name: string)        // the raw bytes are written to this file
    | MissingFileName               // `file_name().unwrap()` panics
    | Print(pretty: bool)           // the body is printed, exit status 0
    | NotJson                       // `to_colored_json_auto().unwrap()` panics on a body that is not JSON

  /** `StatusCode::is_success`. */
  predicate IsSuccess(status: int) {
    200 <= status <= 299
  }

  /** The `Content-Type` header, when present and readable as text, starts with `application/json`. */
  predicate ExpectJson(contentType: Option<string>) {
    contentType.Some? && "application/json" <= contentType.value
  }

  /** The segments of a path that are neither empty nor `.`, as `Path::components` yields them. */
  function Named(segments: seq<string>): (r: seq<string>)
    ensures forall i :: 0 <= i < |r| ==> r[i] != "" && r[i] != "." && r[i] in segments
    decreases |segments|
  {
    if segments == [] then []
    else
      var last := segments[|segments| - 1];
      var rest := Named(segments[..|segments| - 1]);
      if last == "" || last == "." then rest else rest + [last]
  }

  /** `Path::file_name`: the last component, none when it is `..` or there is none. */
  function FileName(path: string): (r: Option<string>)
    ensures r.Some? ==> r.value != "" && r.value != "." && r.value != ".." && '/' !in r.value
  {
    var segments := SplitOn(path, '/');
    var names := Named(segments);
    if names == [] || names[|names| - 1] == ".." then None
    else
      var n := names[|names| - 1];
      assert n in segments;
      Some(n)
  }

  /**
   * The decision, in the order the program takes it. `bodyIsJson` says whether
   * the response text parses as JSON, which pretty-printing requires.
   */
  function Decide(ignoreStatus: bool, status: int, raw: bool, remoteName: bool,
                  contentType: Option<string>, bodyIsJson: bool, path: string): Outcome
  {
    var pretty := !raw && ExpectJson(contentType);
    if !ignoreStatus && !IsSuccess(status) then
      if pretty && !bodyIsJson then NotJson else PrintAndExit1(pretty)
    else if remoteName then
      match FileName(path)
      case None => MissingFileName
      case Some(name) => SaveFile(name)
    else if pretty && !bodyIsJson then NotJson
    else Print(pretty)
  }

  /** The process exit status: 1 after a failure status, 101 for a Rust panic, 0 otherwise. */
  function ExitStatus(o: Outcome): (r: int)
    ensures r == 0 || r == 1 || r == 101
    ensures r == 1 <==> o.PrintAndExit1?
    ensures r == 101 <==> o.MissingFileName? || o.NotJson?
    ensures r == 0 <==> o.Print? || o.SaveFile?
  {
    match o
    case PrintAndExit1(_) => 1
    case MissingFileName => 101
    case NotJson => 101
    case _ => 0
  }

  /**
   * Exit status 1 exactly when the status is a failure, failures are not
   * ignored, and the body does not make the pretty-printer panic.
   */
  lemma ExitOneIff(ignoreStatus: bool, status: int, raw: bool, remoteName: bool,
                   contentType: Option<string>, bodyIsJson: bool, path: string)
    ensures ExitStatus(Decide(ignoreStatus, status, raw, remoteName, contentType, bodyIsJson, path)) == 1
        <==> !ignoreStatus && !IsSuccess(status) && (raw || !ExpectJson(contentType) || bodyIsJson)
  {
  }

  /** The pretty-printer panics exactly on a body to be pretty-printed that is not JSON. */
  lemma NotJsonIff(ignoreStatus: bool, status: int, raw: bool, remoteName: bool,
                   contentType: Option<string>, bodyIsJson: bool, path: string)
    ensures Decide(ignoreStatus, status, raw, remoteName, contentType, bodyIsJson, path).NotJson?
        <==> !raw && ExpectJson(contentType) && !bodyIsJson && (!remoteName || (!ignoreStatus && !IsSuccess(status)))
  {
  }

  /** The status test comes first: save-to-file and the path play no part on a failure status. */
  lemma StatusBeforeSave(status: int, raw: bool, r1: bool, r2: bool, contentType: Option<string>, bodyIsJson: bool,
                          p1: string, p2: string)
    requires !IsSuccess(status)
    ensures Decide(false, status, raw, r1, contentType, bodyIsJson, p1) == Decide(false, status, raw, r2, contentType, bodyIsJson, p2)
    ensures Decide(false, status, raw, r1, contentType, bodyIsJson, p1).PrintAndExit1?
         || Decide(false, status, raw, r1, contentType, bodyIsJson, p1).NotJson?
  {
  }

  /** Whenever the body is printed, it is pretty-printed exactly for JSON in non-raw mode. */
  lemma PrettyIff(ignoreStatus: bool, status: int, raw: bool, remoteName: bool,
                  contentType: Option<string>, bodyIsJson: bool, path: string)
    ensures var o := Decide(ignoreStatus, status, raw, remoteName, contentType, bodyIsJson, path);
      (o.Print? || o.PrintAndExit1?) ==> (o.pretty <==> !raw && ExpectJson(contentType))
  {
  }

  /**
   * With failures ignored and no file requested, every response is printed
   * with exit status 0, unless the pretty-printer panics.
   */
  lemma IgnoreStatusPrints(status: int, raw: bool, contentType: Option<string>, bodyIsJson: bool, path: string)
    ensures Decide(true, status, raw, false, contentType, bodyIsJson, path).Print?
         || Decide(true, status, raw, false, contentType, bodyIsJson, path).NotJson?
    ensures ExitStatus(Decide(true, status, raw, false, contentType, bodyIsJson, path)) == 0
        <==> raw || !ExpectJson(contentType) || bodyIsJson
  {
  }

  /** A file is written only when asked for and the status does not stop the program first. */
  lemma SaveOnlyWhenAsked(ignoreStatus: bool, status: int, raw: bool, remoteName: bool,
                          contentType: Option<string>, bodyIsJson: bool, path: string)
    ensures var o := Decide(ignoreStatus, status, raw, remoteName, contentType, bodyIsJson, path);
      o.SaveFile? ==> remoteName && (ignoreStatus || IsSuccess(status)) && FileName(path) == Some(o.name)
  {
  }

  lemma {:induction false} NamedSnoc(segments: seq<string>, x: string)
    ensures Named(segments + [x]) == if x == "" || x == "." then Named(segments) else Named(segments) + [x]
  {
    assert (segments + [x])[..|segments|] == segments;
  }

  /** The file name is the last path segment. */
  lemma FileNameIsLastSegment(dir: string, name: string)
    requires name != "" && name != "." && name != ".." && '/' !in name
    ensures FileName(dir + "/" + name) == Some(name)
  {
    SplitOnSnoc(dir, '/', name);
    NamedSnoc(SplitOn(dir, '/'), name);
  }

  /** A trailing slash does not change the file name. */
  lemma TrailingSlashIgnored(path: string)
    ensures FileName(path + "/") == FileName(path)
  {
    assert path + "/" == path + ['/'] + "";
    SplitOnSnoc(path, '/', "");
    NamedSnoc(SplitOn(path, '/'), "");
  }

  /** The root path has no file name, so save-to-file panics for it. */
  lemma RootHasNoFileName(ignoreStatus: bool, status: int, raw: bool, contentType: Option<string>, bodyIsJson: bool)
    requires ignoreStatus || IsSuccess(status)
    ensures FileName("/") == None
    ensures Decide(ignoreStatus, status, raw, true, contentType, bodyIsJson, "/") == MissingFileName
  {
    assert "/" == "" + ['/'] + "";
    SplitOnSnoc("", '/', "");
    SplitOnNoSep("", '/');
    assert Named([""]) == [] by {
      assert [""][..0] == [];
    }
    NamedSnoc([""], "");
  }
}
