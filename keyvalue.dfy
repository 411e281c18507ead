/**
 * `build_map` (src/main.rs:108-125): folds `a.b.c=value` arguments into one
 * nested JSON object. Each key is split on `.`; every segment but the last
 * names an object that is created when absent, and the last segment receives
 * the parsed value, replacing whatever was there.
 */
module KeyValueTree {
  import opened Wrappers
  import opened Text
  import opened Json

  type Fields = map<string, Value>

  /** The panics of `build_map`: `split_once(..).unwrap()` and `as_object_mut().unwrap()`. */
  datatype BuildError = MalformedPair(pair: string) | ConflictingKeyPath(pair: string)

  /** The value found by following a non-empty key path from the root object. */
  function GetPath(m: Fields, path: seq<string>): Option<Value>
    requires |path| >= 1
    decreases |path|
  {
    if path[0] !in m then None
    else if |path| == 1 then Some(m[path[0]])
    else
      match m[path[0]]
      case Object(f) => GetPath(f, path[1..])
      case _ => None
  }

  /** A value other than an object sits at `path`. */
  predicate ScalarAt(m: Fields, path: seq<string>)
    requires |path| >= 1
  {
    GetPath(m, path).Some? && !GetPath(m, path).value.Object?
  }

  /** Two key paths part at some segment: neither is a prefix of the other. */
  predicate Diverge(p: seq<string>, q: seq<string>) {
    exists i :: 0 <= i < |p| && i < |q| && p[i] != q[i]
  }

  /**
   * The effect of one pair on the map: descend through (or create) an object
   * for each non-final segment and store `v` at the final one. None when a
   * non-final segment is bound to something other than an object.
   */
  function InsertPath(m: Fields, path: seq<string>, v: Value): Option<Fields>
    requires |path| >= 1
    decreases |path|
  {
    var k := path[0];
    if |path| == 1 then Some(m[k := v])
    else
      var child := if k in m then m[k] else Object(map[]);
      match child
      case Object(f) =>
        (match InsertPath(f, path[1..], v)
         case None => None
         case Some(f') => Some(m[k := Object(f')]))
      case _ => None
  }

  /** The key path of an argument: its key split on `.` (empty for a malformed argument). */
  function KeyPath(pair: string): (r: seq<string>)
    ensures SplitPair(pair).None? ==> r == []
    ensures SplitPair(pair).Some? ==>
              |r| >= 1 && Join(r, ".") == SplitPair(pair).value.0 && forall i :: 0 <= i < |r| ==> '.' !in r[i]
  {
    match SplitPair(pair)
    case None => []
    case Some((k, _)) => SplitOn(k, '.')
  }

  /** One iteration of the outer loop of `build_map`. */
  function Step(m: Fields, pair: string, parse: Parser): Result<Fields, BuildError> {
    match SplitPair(pair)
    case None => Err(MalformedPair(pair))
    case Some((k, raw)) =>
      match InsertPath(m, SplitOn(k, '.'), Leaf(parse, raw))
      case None => Err(ConflictingKeyPath(pair))
      case Some(m') => Ok(m')
  }

  /** The object `build_map` returns for `pairs`, processed in order; the first panic otherwise. */
  function Tree(pairs: seq<string>, parse: Parser): Result<Fields, BuildError>
    decreases |pairs|
  {
    if pairs == [] then Ok(map[])
    else
      match Tree(pairs[..|pairs| - 1], parse)
      case Err(e) => Err(e)
      case Ok(m) => Step(m, pairs[|pairs| - 1], parse)
  }

  // ---------------------------------------------------------------------------
  // One insertion

  /** After an insertion the path leads to the inserted value, whatever was there before. */
  lemma {:induction false} InsertThenGet(m: Fields, path: seq<string>, v: Value)
    requires |path| >= 1 && InsertPath(m, path, v).Some?
    ensures GetPath(InsertPath(m, path, v).value, path) == Some(v)
    decreases |path|
  {
    if |path| > 1 {
      var k := path[0];
      var child := if k in m then m[k] else Object(map[]);
      InsertThenGet(child.fields, path[1..], v);
    }
  }

  /** An insertion leaves every path that parts from it unchanged. */
  lemma {:induction false} InsertKeepsOthers(m: Fields, path: seq<string>, v: Value, q: seq<string>)
    requires |path| >= 1 && |q| >= 1 && InsertPath(m, path, v).Some?
    requires Diverge(path, q)
    ensures GetPath(InsertPath(m, path, v).value, q) == GetPath(m, q)
    decreases |path|
  {
    var m' := InsertPath(m, path, v).value;
    var k := path[0];
    if q[0] != k {
    } else {
      var i :| 0 <= i < |path| && i < |q| && path[i] != q[i];
      assert i >= 1 && |path| > 1 && |q| > 1;
      var child := if k in m then m[k] else Object(map[]);
      var f := child.fields;
      assert path[1..][i - 1] != q[1..][i - 1];
      InsertKeepsOthers(f, path[1..], v, q[1..]);
      if k !in m {
        EmptyHasNoPath(q[1..]);
      }
    }
  }

  lemma EmptyHasNoPath(q: seq<string>)
    requires |q| >= 1
    ensures GetPath(map[], q) == None
  {
  }

  /** Top level: the first segment is bound afterwards and every other key keeps its value. */
  lemma InsertTopLevel(m: Fields, path: seq<string>, v: Value)
    requires |path| >= 1 && InsertPath(m, path, v).Some?
    ensures InsertPath(m, path, v).value.Keys == m.Keys + {path[0]}
    ensures forall k :: k in m && k != path[0] ==> InsertPath(m, path, v).value[k] == m[k]
  {
  }

  /** Storing a non-object replaces the whole subtree: nothing lies below it any more. */
  lemma {:induction false} ScalarReplacesSubtree(m: Fields, path: seq<string>, v: Value, q: seq<string>)
    requires |path| >= 1 && InsertPath(m, path, v).Some? && !v.Object?
    requires |path| < |q| && q[..|path|] == path
    ensures GetPath(InsertPath(m, path, v).value, q) == None
    decreases |path|
  {
    var k := path[0];
    assert q[0] == path[0];
    if |path| > 1 {
      var child := if k in m then m[k] else Object(map[]);
      assert q[1..][..|path| - 1] == path[1..];
      ScalarReplacesSubtree(child.fields, path[1..], v, q[1..]);
    }
  }

  lemma {:induction false} InsertIntoEmpty(path: seq<string>, v: Value)
    requires |path| >= 1
    ensures InsertPath(map[], path, v).Some?
    decreases |path|
  {
    if |path| > 1 {
      InsertIntoEmpty(path[1..], v);
    }
  }

  /**
   * An insertion panics exactly when some proper prefix of the path is bound to
   * a value other than an object.
   */
  lemma {:induction false} InsertFailsIff(m: Fields, path: seq<string>, v: Value)
    requires |path| >= 1
    ensures InsertPath(m, path, v).None? <==> exists i :: 1 <= i < |path| && ScalarAt(m, path[..i])
    decreases |path|
  {
    var k := path[0];
    if |path| > 1 {
      assert path[..1] == [k];
      if k !in m {
        InsertIntoEmpty(path[1..], v);
        forall i | 1 <= i < |path| ensures !ScalarAt(m, path[..i]) {
          assert path[..i][0] == k;
        }
      } else if m[k].Object? {
        var f := m[k].fields;
        InsertFailsIff(f, path[1..], v);
        forall i | 2 <= i < |path|
          ensures ScalarAt(m, path[..i]) <==> ScalarAt(f, path[1..][..i - 1])
        {
          assert path[..i][0] == k;
          assert path[..i][1..] == path[1..][..i - 1];
        }
        if InsertPath(m, path, v).None? {
          var j :| 1 <= j < |path| - 1 && ScalarAt(f, path[1..][..j]);
          assert ScalarAt(m, path[..j + 1]);
        }
      } else {
        assert ScalarAt(m, path[..1]);
      }
    }
  }

  // ---------------------------------------------------------------------------
  // The whole fold

  /** Once a pair panics, the rest of the arguments do not matter. */
  lemma {:induction false} TreeErrSticks(pairs: seq<string>, n: nat, parse: Parser)
    requires n <= |pairs| && Tree(pairs[..n], parse).Err?
    ensures Tree(pairs, parse) == Tree(pairs[..n], parse)
    decreases |pairs| - n
  {
    if n < |pairs| {
      assert pairs[..n + 1][..n] == pairs[..n];
      TreeErrSticks(pairs, n + 1, parse);
    } else {
      assert pairs[..n] == pairs;
    }
  }

  /** A successful build means every argument had a separator. */
  lemma TreeOkAllSplit(pairs: seq<string>, parse: Parser)
    requires Tree(pairs, parse).Ok?
    ensures forall i :: 0 <= i < |pairs| ==> SplitPair(pairs[i]).Some?
  {
    forall i | 0 <= i < |pairs| ensures SplitPair(pairs[i]).Some? {
      TreeOkPrefix(pairs, i + 1, parse);
      TreeExtend(pairs, i, parse);
      StepOkSplits(Tree(pairs[..i], parse).value, pairs[i], parse);
    }
  }

  /** A successful fold succeeded on every prefix. */
  lemma TreeOkPrefix(pairs: seq<string>, n: nat, parse: Parser)
    requires n <= |pairs| && Tree(pairs, parse).Ok?
    ensures Tree(pairs[..n], parse).Ok?
  {
    if Tree(pairs[..n], parse).Err? {
      TreeErrSticks(pairs, n, parse);
    }
  }

  /** The fold unfolded at its last argument. */
  lemma TreeLast(pairs: seq<string>, parse: Parser)
    requires pairs != []
    ensures var init := pairs[..|pairs| - 1];
      Tree(pairs, parse).Ok? ==> Tree(init, parse).Ok? && Step(Tree(init, parse).value, pairs[|pairs| - 1], parse) == Tree(pairs, parse)
  {
  }

  /** A step that succeeds split its argument and inserted the leaf at its key path. */
  lemma StepOkSplits(m: Fields, pair: string, parse: Parser)
    requires Step(m, pair, parse).Ok?
    ensures SplitPair(pair).Some?
    ensures InsertPath(m, KeyPath(pair), Leaf(parse, SplitPair(pair).value.1)) == Some(Step(m, pair, parse).value)
  {
  }

  /** An argument without a separator makes the build panic. */
  lemma MalformedPanics(pairs: seq<string>, parse: Parser, i: nat)
    requires i < |pairs| && SplitPair(pairs[i]).None?
    ensures Tree(pairs, parse).Err?
  {
    if Tree(pairs, parse).Ok? {
      TreeOkAllSplit(pairs, parse);
    }
  }

  /** Last write wins: the last argument's value is the one at its key path. */
  lemma LastWriteWins(pairs: seq<string>, pair: string, parse: Parser, k: string, raw: string)
    requires SplitPair(pair) == Some((k, raw))
    requires Tree(pairs + [pair], parse).Ok?
    ensures GetPath(Tree(pairs + [pair], parse).value, SplitOn(k, '.')) == Some(Leaf(parse, raw))
  {
    var all := pairs + [pair];
    assert all[..|all| - 1] == pairs;
    var m := Tree(pairs, parse).value;
    InsertThenGet(m, SplitOn(k, '.'), Leaf(parse, raw));
  }

  lemma LastArgumentWins(pairs: seq<string>, parse: Parser, k: string, raw: string)
    requires pairs != [] && SplitPair(pairs[|pairs| - 1]) == Some((k, raw))
    requires Tree(pairs, parse).Ok?
    ensures GetPath(Tree(pairs, parse).value, SplitOn(k, '.')) == Some(Leaf(parse, raw))
  {
    TreeLast(pairs, parse);
    var m := Tree(pairs[..|pairs| - 1], parse).value;
    StepOkSplits(m, pairs[|pairs| - 1], parse);
    InsertThenGet(m, SplitOn(k, '.'), Leaf(parse, raw));
  }

  /**
   * Every argument whose key path parts from the key paths of all later
   * arguments ends up in the tree with its inferred value.
   */
  lemma {:induction false} LeafSurvives(pairs: seq<string>, parse: Parser, i: nat, k: string, raw: string)
    requires i < |pairs| && SplitPair(pairs[i]) == Some((k, raw))
    requires Tree(pairs, parse).Ok?
    requires forall j :: i < j < |pairs| ==> Diverge(SplitOn(k, '.'), KeyPath(pairs[j]))
    ensures GetPath(Tree(pairs, parse).value, SplitOn(k, '.')) == Some(Leaf(parse, raw))
    decreases |pairs|
  {
    var init := pairs[..|pairs| - 1];
    var last := pairs[|pairs| - 1];
    if i == |pairs| - 1 {
      LastArgumentWins(pairs, parse, k, raw);
    } else {
      DropLast(pairs, init, i, SplitOn(k, '.'));
      TreeOkPrefix(pairs, |pairs| - 1, parse);
      LeafSurvives(init, parse, i, k, raw);
      SurvivesLast(pairs, parse, SplitOn(k, '.'), Leaf(parse, raw));
    }
  }

  /** Dropping the last argument keeps the divergence facts about the earlier ones. */
  lemma DropLast(pairs: seq<string>, init: seq<string>, i: nat, p: seq<string>)
    requires i < |pairs| - 1 && init == pairs[..|pairs| - 1]
    requires forall j :: i < j < |pairs| ==> Diverge(p, KeyPath(pairs[j]))
    ensures init[i] == pairs[i]
    ensures forall j :: i < j < |init| ==> Diverge(p, KeyPath(init[j]))
    ensures Diverge(p, KeyPath(pairs[|pairs| - 1]))
  {
  }

  /** A value at a path survives a last argument whose key path parts from it. */
  lemma SurvivesLast(pairs: seq<string>, parse: Parser, p: seq<string>, v: Value)
    requires pairs != [] && Tree(pairs, parse).Ok? && |p| >= 1
    requires Diverge(p, KeyPath(pairs[|pairs| - 1]))
    requires Tree(pairs[..|pairs| - 1], parse).Ok? ==> GetPath(Tree(pairs[..|pairs| - 1], parse).value, p) == Some(v)
    ensures GetPath(Tree(pairs, parse).value, p) == Some(v)
  {
    TreeLast(pairs, parse);
    StepKeepsOthers(Tree(pairs[..|pairs| - 1], parse).value, pairs[|pairs| - 1], parse, p);
  }

  /** A step leaves alone every path that parts from its own key path. */
  lemma StepKeepsOthers(m: Fields, pair: string, parse: Parser, q: seq<string>)
    requires Step(m, pair, parse).Ok? && |q| >= 1
    requires Diverge(q, KeyPath(pair))
    ensures GetPath(Step(m, pair, parse).value, q) == GetPath(m, q)
  {
    StepOkSplits(m, pair, parse);
    var p := KeyPath(pair);
    assert Diverge(p, q) by {
      var d :| 0 <= d < |q| && d < |p| && q[d] != p[d];
    }
    InsertKeepsOthers(m, p, Leaf(parse, SplitPair(pair).value.1), q);
  }

  // ---------------------------------------------------------------------------
  // The imperative walk

  /**
   * One level of the descent: the object `parent` and the key under which the
   * walk went down. A stack of frames together with the current object stands
   * for the mutable `current` reference into the root map.
   */
  datatype Frame = Frame(parent: Fields, key: string)

  /** The root map that a stack of frames and the current object make up. */
  function Plug(ctx: seq<Frame>, current: Fields): Fields
    decreases |ctx|
  {
    if ctx == [] then current
    else
      var top := ctx[|ctx| - 1];
      Plug(ctx[..|ctx| - 1], top.parent[top.key := Object(current)])
  }

  function PlugResult(ctx: seq<Frame>, r: Option<Fields>): Option<Fields> {
    match r
    case None => None
    case Some(f) => Some(Plug(ctx, f))
  }

  /** The invariant of the walk: finishing the insertion below `current` and plugging it back gives the whole insertion. */
  ghost predicate WalkInvariant(root: Fields, parts: seq<string>, leaf: Value, ctx: seq<Frame>, current: Fields, i: nat)
    requires |parts| >= 1 && i < |parts|
  {
    InsertPath(root, parts, leaf) == PlugResult(ctx, InsertPath(current, parts[i..], leaf))
  }

  lemma WalkStart(root: Fields, parts: seq<string>, leaf: Value)
    requires |parts| >= 1
    ensures WalkInvariant(root, parts, leaf, [], root, 0)
  {
    assert parts[0..] == parts;
  }

  /** Going down through an existing object, or one created for the segment, keeps the invariant. */
  lemma WalkDescend(root: Fields, parts: seq<string>, leaf: Value, ctx: seq<Frame>, current: Fields, i: nat)
    requires i < |parts| - 1 && WalkInvariant(root, parts, leaf, ctx, current, i)
    requires parts[i] in current ==> current[parts[i]].Object?
    ensures var child := if parts[i] in current then current[parts[i]].fields else map[];
            WalkInvariant(root, parts, leaf, ctx + [Frame(current, parts[i])], child, i + 1)
  {
    assert parts[i..][1..] == parts[i + 1..];
    var ctx' := ctx + [Frame(current, parts[i])];
    assert ctx'[..|ctx'| - 1] == ctx;
  }

  /** Going down through a value that is not an object makes the insertion fail. */
  lemma WalkBlocked(root: Fields, parts: seq<string>, leaf: Value, ctx: seq<Frame>, current: Fields, i: nat)
    requires i < |parts| - 1 && WalkInvariant(root, parts, leaf, ctx, current, i)
    requires parts[i] in current && !current[parts[i]].Object?
    ensures InsertPath(root, parts, leaf) == None
  {
  }

  /** At the last segment the value is inserted into `current`, which completes the insertion. */
  lemma WalkArrive(root: Fields, parts: seq<string>, leaf: Value, ctx: seq<Frame>, current: Fields, i: nat)
    requires i == |parts| - 1 && WalkInvariant(root, parts, leaf, ctx, current, i)
    ensures InsertPath(root, parts, leaf) == Some(Plug(ctx, current[parts[i] := leaf]))
  {
  }

  /** The fold over one more pair. */
  lemma TreeExtend(pairs: seq<string>, n: nat, parse: Parser)
    requires n < |pairs|
    ensures Tree(pairs[..n + 1], parse) == match Tree(pairs[..n], parse) case Err(e) => Err(e) case Ok(m) => Step(m, pairs[n], parse)
  {
    assert pairs[..n + 1][..n] == pairs[..n];
  }

  /**
   * `build_map`: for each pair, split at the first separator, then walk the
   * dotted segments with a `current` reference, creating objects on the way and
   * inserting the parsed value at the last segment.
   */
  method BuildMap(pairs: seq<string>, parse: Parser) returns (r: Result<Value, BuildError>)
    ensures r.Ok? <==> Tree(pairs, parse).Ok?
    ensures r.Ok? ==> r.value == Object(Tree(pairs, parse).value)
    ensures r.Err? ==> r.error == Tree(pairs, parse).error
  {
    var root: Fields := map[];
    for n := 0 to |pairs|
      invariant Tree(pairs[..n], parse) == Ok(root)
    {
      var pair := pairs[n];
      TreeExtend(pairs, n, parse);
      var split := SplitPair(pair);
      if split.None? {
        TreeErrSticks(pairs, n + 1, parse);
        return Err(MalformedPair(pair));
      }
      var (key, raw) := split.value;
      var parts := SplitOn(key, '.');
      ghost var leaf := Leaf(parse, raw);
      var current := root;
      var ctx: seq<Frame> := [];
      WalkStart(root, parts, leaf);
      var i := 0;
      while i < |parts|
        invariant 0 <= i <= |parts|
        invariant i < |parts| ==> WalkInvariant(root, parts, leaf, ctx, current, i)
        invariant i == |parts| ==> InsertPath(root, parts, leaf) == Some(Plug(ctx, current))
      {
        var part := parts[i];
        if i == |parts| - 1 {
          WalkArrive(root, parts, leaf, ctx, current, i);
          var value := match parse(raw) case Some(v) => v case None => String(raw);
          current := current[part := value];
        } else {
          if part in current && !current[part].Object? {
            WalkBlocked(root, parts, leaf, ctx, current, i);
            TreeErrSticks(pairs, n + 1, parse);
            return Err(ConflictingKeyPath(pair));
          }
          WalkDescend(root, parts, leaf, ctx, current, i);
          var child := if part in current then current[part].fields else map[];
          ctx := ctx + [Frame(current, part)];
          current := child;
        }
        i := i + 1;
      }
      root := Plug(ctx, current);
    }
    assert pairs[..|pairs|] == pairs;
    r := Ok(Object(root));
  }

  // ---------------------------------------------------------------------------
  // The cases of `test_build_map` and `test_build_map_bool` (src/main.rs:268-294)

  /** Two dotted keys with the same first segment end up in one shared object. */
  lemma SiblingsShareObject(pairs: seq<string>, a: string, b1: string, b2: string, raw1: string, raw2: string, parse: Parser)
    requires '.' !in a && '.' !in b1 && '.' !in b2 && b1 != b2
    requires NoPairSep(a) && NoPairSep(b1) && NoPairSep(b2)
    requires pairs == [a + "." + b1 + "=" + raw1, a + "." + b2 + "=" + raw2]
    ensures Tree(pairs, parse) == Ok(map[a := Object(map[b1 := Leaf(parse, raw1), b2 := Leaf(parse, raw2)])])
  {
    var v1, v2 := Leaf(parse, raw1), Leaf(parse, raw2);
    TreeTwo(pairs, parse);
    DottedStep(map[], a, b1, raw1, parse);
    var m1 := map[a := Object(map[b1 := v1])];
    assert Step(map[], pairs[0], parse) == Ok(m1) by {
      assert map[][a := Object(map[][b1 := v1])] == m1;
    }
    DottedStep(m1, a, b2, raw2, parse);
    SiblingMaps(a, b1, b2, v1, v2);
  }

  lemma SiblingMaps(a: string, b1: string, b2: string, v1: Value, v2: Value)
    ensures var m1 := map[a := Object(map[b1 := v1])];
      m1[a := Object(m1[a].fields[b2 := v2])] == map[a := Object(map[b1 := v1, b2 := v2])]
  {
  }

  /** The fold over two arguments. */
  lemma TreeTwo(pairs: seq<string>, parse: Parser)
    requires |pairs| == 2
    ensures Tree(pairs, parse) == match Step(map[], pairs[0], parse) case Err(e) => Err(e) case Ok(m) => Step(m, pairs[1], parse)
  {
    assert pairs[..|pairs| - 1] == [pairs[0]];
    assert [pairs[0]][..0] == [];
    assert Tree([pairs[0]], parse) == Step(map[], pairs[0], parse);
  }

  /** One `a.b=raw` argument: `raw`'s leaf is stored under `b` inside the object at `a`. */
  lemma DottedStep(m: Fields, a: string, b: string, raw: string, parse: Parser)
    requires '.' !in a && '.' !in b && NoPairSep(a) && NoPairSep(b)
    requires a in m ==> m[a].Object?
    ensures Step(m, a + "." + b + "=" + raw, parse)
         == Ok(m[a := Object((if a in m then m[a].fields else map[])[b := Leaf(parse, raw)])])
  {
    var k := a + "." + b;
    assert NoPairSep(k) by {
      forall i | 0 <= i < |k| ensures !IsPairSep(k[i]) {
        if i < |a| { assert k[i] == a[i]; } else if i > |a| { assert k[i] == b[i - |a| - 1]; }
      }
    }
    assert a + "." + b + "=" + raw == k + ['='] + raw;
    SplitPairUnique(a + "." + b + "=" + raw, k, '=', raw);
    SplitOnNoSep(a, '.');
    SplitOnSnoc(a, '.', b);
    assert SplitOn(k, '.') == [a, b];
    assert [a, b][1..] == [b];
    var v := Leaf(parse, raw);
    var f := if a in m then m[a].fields else map[];
    assert InsertPath(f, [b], v) == Some(f[b := v]);
    assert InsertPath(m, [a, b], v) == Some(m[a := Object(f[b := v])]);
  }

  /**
   * Undotted, distinct keys: the build succeeds and every key holds its own
   * inferred value.
   */
  lemma FlatKeys(pairs: seq<string>, keys: seq<string>, raws: seq<string>, parse: Parser)
    requires |pairs| == |keys| == |raws|
    requires forall i :: 0 <= i < |pairs| ==> pairs[i] == keys[i] + "=" + raws[i]
    requires forall i :: 0 <= i < |keys| ==> NoPairSep(keys[i]) && '.' !in keys[i]
    requires forall i, j :: 0 <= i < j < |keys| ==> keys[i] != keys[j]
    ensures Tree(pairs, parse).Ok?
    ensures forall i :: 0 <= i < |pairs| ==> GetPath(Tree(pairs, parse).value, [keys[i]]) == Some(Leaf(parse, raws[i]))
  {
    forall i | 0 <= i < |pairs| ensures SplitPair(pairs[i]) == Some((keys[i], raws[i])) && KeyPath(pairs[i]) == [keys[i]] {
      SplitPairUnique(pairs[i], keys[i], '=', raws[i]);
      SplitOnNoSep(keys[i], '.');
    }
    FlatTreeOk(pairs, parse);
    forall i | 0 <= i < |pairs| ensures GetPath(Tree(pairs, parse).value, [keys[i]]) == Some(Leaf(parse, raws[i])) {
      SplitOnNoSep(keys[i], '.');
      forall j | i < j < |pairs| ensures Diverge([keys[i]], KeyPath(pairs[j])) {
        assert [keys[i]][0] != KeyPath(pairs[j])[0];
      }
      LeafSurvives(pairs, parse, i, keys[i], raws[i]);
    }
  }

  lemma {:induction false} FlatTreeOk(pairs: seq<string>, parse: Parser)
    requires forall i :: 0 <= i < |pairs| ==> |KeyPath(pairs[i])| == 1 && SplitPair(pairs[i]).Some?
    ensures Tree(pairs, parse).Ok?
    decreases |pairs|
  {
    if pairs != [] {
      var init := pairs[..|pairs| - 1];
      assert forall i :: 0 <= i < |init| ==> init[i] == pairs[i];
      FlatTreeOk(init, parse);
    }
  }

  // ---------------------------------------------------------------------------
  // Arguments whose key paths pairwise part from each other

  /** Every value other than an object in `m` lies at or below the key path of one of the first `n` arguments. */
  ghost predicate ScalarsUnder(m: Fields, pairs: seq<string>, n: nat)
    requires n <= |pairs|
  {
    forall q {:trigger ScalarAt(m, q)} :: |q| >= 1 && ScalarAt(m, q) ==> exists j :: 0 <= j < n && KeyPath(pairs[j]) <= q
  }

  /** After an insertion, a non-object lies at or below the inserted path, or was there before. */
  lemma {:induction false} InsertScalars(m: Fields, p: seq<string>, v: Value, q: seq<string>)
    requires |p| >= 1 && |q| >= 1 && InsertPath(m, p, v).Some?
    requires ScalarAt(InsertPath(m, p, v).value, q)
    ensures p <= q || ScalarAt(m, q)
    decreases |p|
  {
    var k := p[0];
    if q[0] == k && |p| > 1 && |q| > 1 {
      var child := if k in m then m[k] else Object(map[]);
      InsertScalars(child.fields, p[1..], v, q[1..]);
      if p[1..] <= q[1..] {
        assert p == [k] + p[1..] && q == [k] + q[1..];
      } else if k !in m {
        EmptyHasNoPath(q[1..]);
      }
    }
  }

  /** A path that parts from `a` has no prefix that `a` is a prefix of. */
  lemma DivergeNotPrefix(a: seq<string>, p: seq<string>, i: nat)
    requires Diverge(a, p) && i <= |p|
    ensures !(a <= p[..i])
  {
    var d :| 0 <= d < |a| && d < |p| && a[d] != p[d];
    assert d < i ==> p[..i][d] == p[d];
  }

  /** An insertion whose path parts from the first `n` key paths meets no non-object on the way. */
  lemma InsertMeetsNoScalar(m: Fields, pairs: seq<string>, n: nat, p: seq<string>, v: Value)
    requires n <= |pairs| && |p| >= 1 && ScalarsUnder(m, pairs, n)
    requires forall j :: 0 <= j < n ==> Diverge(KeyPath(pairs[j]), p)
    ensures InsertPath(m, p, v).Some?
  {
    forall i | 1 <= i < |p| ensures !ScalarAt(m, p[..i]) {
      NoScalarOnTheWay(m, pairs, n, p, i);
    }
    InsertFailsIff(m, p, v);
  }

  /** No proper prefix of such a path holds a non-object. */
  lemma NoScalarOnTheWay(m: Fields, pairs: seq<string>, n: nat, p: seq<string>, i: nat)
    requires n <= |pairs| && 1 <= i < |p| && ScalarsUnder(m, pairs, n)
    requires forall j :: 0 <= j < n ==> Diverge(KeyPath(pairs[j]), p)
    ensures !ScalarAt(m, p[..i])
  {
    NotUnderKeyPaths(pairs, n, p, i);
  }

  /** No key path that parts from `p` is a prefix of a prefix of `p`. */
  lemma NotUnderKeyPaths(pairs: seq<string>, n: nat, p: seq<string>, i: nat)
    requires n <= |pairs| && i <= |p|
    requires forall j :: 0 <= j < n ==> Diverge(KeyPath(pairs[j]), p)
    ensures forall j :: 0 <= j < n ==> !(KeyPath(pairs[j]) <= p[..i])
  {
    forall j | 0 <= j < n ensures !(KeyPath(pairs[j]) <= p[..i]) {
      DivergeNotPrefix(KeyPath(pairs[j]), p, i);
    }
  }

  /** Inserting at the key path of argument `n` keeps the non-objects under the first `n + 1` key paths. */
  lemma InsertKeepsUnder(m: Fields, pairs: seq<string>, n: nat, v: Value)
    requires n < |pairs| && ScalarsUnder(m, pairs, n)
    requires |KeyPath(pairs[n])| >= 1 && InsertPath(m, KeyPath(pairs[n]), v).Some?
    ensures ScalarsUnder(InsertPath(m, KeyPath(pairs[n]), v).value, pairs, n + 1)
  {
    forall q | |q| >= 1 && ScalarAt(InsertPath(m, KeyPath(pairs[n]), v).value, q)
      ensures exists j :: 0 <= j < n + 1 && KeyPath(pairs[j]) <= q
    {
      InsertScalars(m, KeyPath(pairs[n]), v, q);
    }
  }

  /** A step on a well-formed argument is the insertion of its leaf at its key path. */
  lemma StepInsert(m: Fields, pair: string, parse: Parser)
    requires SplitPair(pair).Some?
    ensures Step(m, pair, parse) == match InsertPath(m, KeyPath(pair), Leaf(parse, SplitPair(pair).value.1))
                                    case None => Err(ConflictingKeyPath(pair))
                                    case Some(m') => Ok(m')
  {
  }

  /** Argument `n`, whose key path parts from the earlier ones, builds and keeps the invariant. */
  lemma StepKeepsUnder(m: Fields, pairs: seq<string>, n: nat, parse: Parser)
    requires n < |pairs| && ScalarsUnder(m, pairs, n) && SplitPair(pairs[n]).Some?
    requires forall j :: 0 <= j < n ==> Diverge(KeyPath(pairs[j]), KeyPath(pairs[n]))
    ensures Step(m, pairs[n], parse).Ok?
    ensures ScalarsUnder(Step(m, pairs[n], parse).value, pairs, n + 1)
  {
    var v := Leaf(parse, SplitPair(pairs[n]).value.1);
    InsertMeetsNoScalar(m, pairs, n, KeyPath(pairs[n]), v);
    InsertKeepsUnder(m, pairs, n, v);
    StepInsert(m, pairs[n], parse);
  }

  /** The first `n` arguments build, and their non-objects lie under their key paths. */
  lemma {:induction false} DistinctPrefixBuilds(pairs: seq<string>, parse: Parser, n: nat)
    requires n <= |pairs|
    requires forall i :: 0 <= i < |pairs| ==> SplitPair(pairs[i]).Some?
    requires forall i, j :: 0 <= i < j < |pairs| ==> Diverge(KeyPath(pairs[i]), KeyPath(pairs[j]))
    ensures Tree(pairs[..n], parse).Ok?
    ensures ScalarsUnder(Tree(pairs[..n], parse).value, pairs, n)
    decreases n
  {
    if n == 0 {
      assert pairs[..0] == [];
      forall q | |q| >= 1 ensures !ScalarAt(map[], q) {
        EmptyHasNoPath(q);
      }
    } else {
      DistinctPrefixBuilds(pairs, parse, n - 1);
      StepKeepsUnder(Tree(pairs[..n - 1], parse).value, pairs, n - 1, parse);
      TreeExtend(pairs, n - 1, parse);
    }
  }

  /**
   * Arguments whose key paths pairwise part from each other always build: no
   * `as_object_mut().unwrap()` panics. Distinct keys are not enough: `a=1 a.b=2`
   * has distinct keys but `a` is a prefix of `a.b`.
   */
  lemma DistinctPathsBuild(pairs: seq<string>, parse: Parser)
    requires forall i :: 0 <= i < |pairs| ==> SplitPair(pairs[i]).Some?
    requires forall i, j :: 0 <= i < j < |pairs| ==> Diverge(KeyPath(pairs[i]), KeyPath(pairs[j]))
    ensures Tree(pairs, parse).Ok?
  {
    DistinctPrefixBuilds(pairs, parse, |pairs|);
    assert pairs[..|pairs|] == pairs;
  }

  /** With pairwise parting key paths, every argument's leaf is found at its key path. */
  lemma DistinctPathsFound(pairs: seq<string>, parse: Parser, i: nat, k: string, raw: string)
    requires forall i :: 0 <= i < |pairs| ==> SplitPair(pairs[i]).Some?
    requires forall i, j :: 0 <= i < j < |pairs| ==> Diverge(KeyPath(pairs[i]), KeyPath(pairs[j]))
    requires i < |pairs| && SplitPair(pairs[i]) == Some((k, raw))
    ensures Tree(pairs, parse).Ok?
    ensures GetPath(Tree(pairs, parse).value, SplitOn(k, '.')) == Some(Leaf(parse, raw))
  {
    DistinctPathsBuild(pairs, parse);
    assert KeyPath(pairs[i]) == SplitOn(k, '.');
    LeafSurvives(pairs, parse, i, k, raw);
  }

  /**
   * An argument whose key path runs through a non-object already stored panics,
   * as `a=1 a.b=2` does at `as_object_mut().unwrap()`.
   */
  lemma ThroughScalarPanics(m: Fields, pair: string, parse: Parser, p: seq<string>)
    requires |p| >= 1 && ScalarAt(m, p) && SplitPair(pair).Some?
    requires |p| < |KeyPath(pair)| && KeyPath(pair)[..|p|] == p
    ensures Step(m, pair, parse) == Err(ConflictingKeyPath(pair))
  {
    InsertFailsIff(m, KeyPath(pair), Leaf(parse, SplitPair(pair).value.1));
  }

  // The case of `test_build_map_bool` (src/main.rs:279-294).

  lemma ScalarTypesExample(pairs: seq<string>)
    requires pairs == ["a=true", "b=abc123", "c={", "d=5", "e=-5.5"]
    ensures Tree(pairs, ScalarParse).Ok?
    ensures var m := Tree(pairs, ScalarParse).value;
      && GetPath(m, ["a"]) == Some(Bool(true))
      && GetPath(m, ["b"]) == Some(String("abc123"))
      && GetPath(m, ["c"]) == Some(String("{"))
      && GetPath(m, ["d"]) == Some(Number("5"))
      && GetPath(m, ["e"]) == Some(Number("-5.5"))
  {
    ScalarTypesShape(pairs, ScalarParse);
    LeafTrue();
    LeafWord();
    LeafBrace();
    LeafInteger();
    LeafDecimal();
  }

  /** The keys of `test_build_map_bool`, whatever the parser: each holds the leaf of its value. */
  lemma ScalarTypesShape(pairs: seq<string>, parse: Parser)
    requires pairs == ["a=true", "b=abc123", "c={", "d=5", "e=-5.5"]
    ensures Tree(pairs, parse).Ok?
    ensures var m := Tree(pairs, parse).value;
      && GetPath(m, ["a"]) == Some(Leaf(parse, "true"))
      && GetPath(m, ["b"]) == Some(Leaf(parse, "abc123"))
      && GetPath(m, ["c"]) == Some(Leaf(parse, "{"))
      && GetPath(m, ["d"]) == Some(Leaf(parse, "5"))
      && GetPath(m, ["e"]) == Some(Leaf(parse, "-5.5"))
  {
    var keys, raws := ["a", "b", "c", "d", "e"], ["true", "abc123", "{", "5", "-5.5"];
    ScalarTypesSpelling(pairs, keys, raws);
    FlatKeys(pairs, keys, raws, parse);
    assert keys[0] == "a" && keys[1] == "b" && keys[2] == "c" && keys[3] == "d" && keys[4] == "e";
    assert raws[0] == "true" && raws[1] == "abc123" && raws[2] == "{" && raws[3] == "5" && raws[4] == "-5.5";
  }

  lemma ScalarTypesSpelling(pairs: seq<string>, keys: seq<string>, raws: seq<string>)
    requires pairs == ["a=true", "b=abc123", "c={", "d=5", "e=-5.5"]
    requires keys == ["a", "b", "c", "d", "e"] && raws == ["true", "abc123", "{", "5", "-5.5"]
    ensures |pairs| == |keys| == |raws|
    ensures forall i :: 0 <= i < |pairs| ==> pairs[i] == keys[i] + "=" + raws[i]
    ensures forall i :: 0 <= i < |keys| ==> NoPairSep(keys[i]) && '.' !in keys[i]
    ensures forall i, j :: 0 <= i < j < |keys| ==> keys[i] != keys[j]
  {
  }

  // The case of `test_build_map` (src/main.rs:268-277).

  lemma CredentialExample(pairs: seq<string>)
    requires pairs == ["credential.username=test@gmail.com", "credential.password=foo"]
    ensures Tree(pairs, ScalarParse)
         == Ok(map["credential" := Object(map["username" := String("test@gmail.com"), "password" := String("foo")])])
  {
    CredentialShape(pairs);
    CredentialLeaves();
  }

  lemma CredentialShape(pairs: seq<string>)
    requires pairs == ["credential.username=test@gmail.com", "credential.password=foo"]
    ensures Tree(pairs, ScalarParse)
         == Ok(map["credential" := Object(map["username" := Leaf(ScalarParse, "test@gmail.com"), "password" := Leaf(ScalarParse, "foo")])])
  {
    CredentialSpelling();
    assert NoPairSep("credential") && NoPairSep("username") && NoPairSep("password");
    SiblingsShareObject(pairs, "credential", "username", "password", "test@gmail.com", "foo", ScalarParse);
  }

  lemma CredentialLeaves()
    ensures Leaf(ScalarParse, "test@gmail.com") == String("test@gmail.com")
    ensures Leaf(ScalarParse, "foo") == String("foo")
  {
    LeafOfWord("test@gmail.com");
    LeafOfWord("foo");
  }

  lemma CredentialSpelling()
    ensures "credential" + "." + "username" + "=" + "test@gmail.com" == "credential.username=test@gmail.com"
    ensures "credential" + "." + "password" + "=" + "foo" == "credential.password=foo"
  {
    UsernameSpelling();
  }

  lemma UsernameSpelling()
    ensures "credential" + "." + "username" + "=" + "test@gmail.com" == "credential.username=test@gmail.com"
  {
  }
}
