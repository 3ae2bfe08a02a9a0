/** Assembly of the REST API's path map from the parsed operation pages:
    one path item per route, created by the first operation on it with
    the route's `{name}` parameters, and one slot per HTTP method. */
module RestPaths {
  import opened Wrappers
  import opened Strings
  import opened Iter
  import IM = IndexMaps
  import OA = OpenApi
  import Op = Operation

  /** The names of the `{name}` segments of a route, left to right: each
      `{` followed by one or more characters other than `}` and then a
      `}` (the regular expression `\{([^}]+)}`). */
  function PathParameterNames(s: string): (r: seq<string>)
    ensures forall k :: 0 <= k < |r| ==> r[k] != [] && '}' !in r[k]
    decreases |s|
  {
    if s == [] then []
    else if s[0] == '{' && '}' in s[1..] then
      var (name, _) := SplitOnce(s[1..], '}').value;
      if name == [] then PathParameterNames(s[1..])
      else [name] + PathParameterNames(s[|name| + 2..])
    else PathParameterNames(s[1..])
  }

  /** Text without `{` holds no parameter. */
  lemma {:induction false} NoBraceNoParameter(s: string)
    requires '{' !in s
    ensures PathParameterNames(s) == []
    decreases |s|
  {
    if s != [] {
      NoBraceNoParameter(s[1..]);
    }
  }

  /** A `{name}` segment after text without braces gives `name` first. */
  lemma ParameterAfterText(prefix: string, name: string, rest: string)
    requires '{' !in prefix && name != [] && '}' !in name
    ensures PathParameterNames(prefix + "{" + name + "}" + rest) == [name] + PathParameterNames(rest)
    decreases |prefix|
  {
    var s := prefix + "{" + name + "}" + rest;
    if prefix == [] {
      assert s[1..] == name + "}" + rest;
      SplitOnceAt(name, rest);
      assert s[|name| + 2..] == rest;
    } else {
      assert s[1..] == prefix[1..] + "{" + name + "}" + rest;
      ParameterAfterText(prefix[1..], name, rest);
    }
  }

  lemma {:induction false} SplitOnceAt(name: string, rest: string)
    requires '}' !in name
    ensures SplitOnce(name + "}" + rest, '}') == Some((name, rest))
    decreases |name|
  {
    var s := name + "}" + rest;
    if name == [] {
      assert s[1..] == rest;
    } else {
      assert s[1..] == name[1..] + "}" + rest;
      SplitOnceAt(name[1..], rest);
      assert [name[0]] + name[1..] == name;
    }
  }

  /** A path parameter: always required, with a plain string schema. */
  datatype PathParameter = PathParameter(name: string, required: bool, schema: OA.Schema)

  function PathParameterOf(name: string): PathParameter
  {
    PathParameter(name, true, OA.Bare(OA.PlainString))
  }

  /** The parameters of a new path item. */
  function PathParameters(path: string): (r: seq<PathParameter>)
    ensures |r| == |PathParameterNames(path)|
    ensures forall k :: 0 <= k < |r| ==> r[k].name == PathParameterNames(path)[k] && r[k].required
  {
    Map(PathParameterNames(path), PathParameterOf)
  }

  datatype PathItem = PathItem(
    parameters: seq<PathParameter>,
    get: Option<Op.OpenApiOperation>,
    post: Option<Op.OpenApiOperation>,
    put: Option<Op.OpenApiOperation>,
    delete: Option<Op.OpenApiOperation>)

  type Paths = IM.IndexMap<string, PathItem>

  function NewPathItem(path: string): PathItem
  {
    PathItem(PathParameters(path), None, None, None, None)
  }

  function Slot(item: PathItem, m: Op.Method): Option<Op.OpenApiOperation>
  {
    match m
    case Get => item.get
    case Post => item.post
    case Put => item.put
    case Delete => item.delete
  }

  /** Fills the slot of `m`, leaving the parameters and the other slots. */
  function SetSlot(item: PathItem, m: Op.Method, o: Op.OpenApiOperation): (r: PathItem)
    ensures r.parameters == item.parameters
    ensures Slot(r, m) == Some(o)
    ensures forall m' :: m' != m ==> Slot(r, m') == Slot(item, m')
  {
    match m
    case Get => item.(get := Some(o))
    case Post => item.(post := Some(o))
    case Put => item.(put := Some(o))
    case Delete => item.(delete := Some(o))
  }

  /** The settings `to_openapi` needs. */
  datatype Rendering = Rendering(apiVersion: string, typeMapping: map<string, string>, elementMapping: map<string, string>)

  function Render(op: Op.Operation, g: Rendering): Op.OpenApiOperation
  {
    Op.ToOpenApi(op, g.apiVersion, g.typeMapping, g.elementMapping)
  }

  /** One operation: skipped unless its path starts with `/`; otherwise
      its path item is created if new and its method's slot is set. */
  function Step(paths: Paths, op: Op.Operation, g: Rendering): Paths
  {
    if !StartsWith(op.path, "/") then paths
    else
      var ps := IM.InsertIfAbsent(paths, op.path, NewPathItem(op.path));
      match IM.Get(ps, op.path)
      case None => ps
      case Some(item) => IM.Insert(ps, op.path, SetSlot(item, op.httpMethod, Render(op, g)))
  }

  function Fold(ops: seq<Op.Operation>, g: Rendering): Paths
  {
    if ops == [] then [] else Step(Fold(ops[..|ops| - 1], g), ops[|ops| - 1], g)
  }

  datatype PathsError = UnableToConvert(fileName: string, cause: Op.OperationParseError)

  function Convert(f: (string, Result<Op.Operation, Op.OperationParseError>)): Result<Op.Operation, PathsError>
  {
    match f.1
    case Ok(op) => Ok(op)
    case Err(e) => Err(UnableToConvert(f.0, e))
  }

  /** The path map of the pages in order, or the first page that fails to
      parse. */
  function PathsSpec(files: seq<(string, Result<Op.Operation, Op.OperationParseError>)>, g: Rendering): Result<Paths, PathsError>
  {
    var ops :- TryMap(files, Convert);
    Ok(Fold(ops, g))
  }

  /** The loop over the pages (`paths`), already read and parsed in name
      order. */
  method BuildPaths(files: seq<(string, Result<Op.Operation, Op.OperationParseError>)>, g: Rendering)
    returns (r: Result<Paths, PathsError>)
    ensures r == PathsSpec(files, g)
  {
    var paths: Paths := [];
    var i := 0;
    ghost var ops: seq<Op.Operation> := [];
    while i < |files|
      invariant 0 <= i <= |files|
      invariant |ops| == i && forall k :: 0 <= k < i ==> Convert(files[k]) == Ok(ops[k])
      invariant paths == Fold(ops, g)
    {
      var (fileName, parsed) := files[i];
      if parsed.Err? {
        r := Err(UnableToConvert(fileName, parsed.error));
        assert Convert(files[i]) == Err(r.error);
        FirstFailure(files, i);
        return;
      }
      var op := parsed.value;
      assert (ops + [op])[..i] == ops;
      ops := ops + [op];
      paths := AddOperation(paths, op, g);
      i := i + 1;
    }
    TryMapAll(files, ops);
    r := Ok(paths);
  }

  /** The body of the loop: one operation's route and slot. */
  method AddOperation(paths: Paths, op: Op.Operation, g: Rendering) returns (r: Paths)
    ensures r == Step(paths, op, g)
  {
    r := paths;
    if StartsWith(op.path, "/") {
      r := IM.InsertIfAbsent(r, op.path, NewPathItem(op.path));
      var item := IM.Get(r, op.path);
      if item.Some? {
        r := IM.Insert(r, op.path, SetSlot(item.value, op.httpMethod, Render(op, g)));
      }
    }
  }

  lemma FirstFailure(files: seq<(string, Result<Op.Operation, Op.OperationParseError>)>, i: nat)
    requires i < |files| && Convert(files[i]).Err?
    requires forall k :: 0 <= k < i ==> Convert(files[k]).Ok?
    ensures TryMap(files, Convert) == Err(Convert(files[i]).error)
  {
    var t := TryMap(files, Convert);
    var j :| 0 <= j < |files| && Convert(files[j]) == Err(t.error) && forall k :: 0 <= k < j ==> Convert(files[k]).Ok?;
    assert j == i;
  }

  lemma TryMapAll(files: seq<(string, Result<Op.Operation, Op.OperationParseError>)>, ops: seq<Op.Operation>)
    requires |ops| == |files| && forall k :: 0 <= k < |files| ==> Convert(files[k]) == Ok(ops[k])
    ensures TryMap(files, Convert) == Ok(ops)
  {
    var t := TryMap(files, Convert);
    assert t.Ok?;
    assert forall k :: 0 <= k < |ops| ==> t.value[k] == ops[k];
  }

  // What the fold keeps.

  /** Every path item holds the parameters of its own route. */
  predicate ParametersFollowRoutes(paths: Paths)
  {
    forall k :: 0 <= k < |paths| ==> paths[k].1.parameters == PathParameters(paths[k].0)
  }

  lemma StepKeepsParameters(paths: Paths, op: Op.Operation, g: Rendering)
    requires ParametersFollowRoutes(paths)
    ensures ParametersFollowRoutes(Step(paths, op, g))
  {
    if StartsWith(op.path, "/") {
      var ps := IM.InsertIfAbsent(paths, op.path, NewPathItem(op.path));
      assert ParametersFollowRoutes(ps);
      match IM.Get(ps, op.path)
      case None =>
      case Some(item) =>
        var i := IM.IndexOf(ps, op.path).value;
        assert item == ps[i].1;
        assert IM.Insert(ps, op.path, SetSlot(item, op.httpMethod, Render(op, g))) == ps[i := (op.path, SetSlot(item, op.httpMethod, Render(op, g)))];
    }
  }

  /** The parameters of a route are fixed by the route itself: later
      operations on it never change them. */
  lemma {:induction false} FoldKeepsParameters(ops: seq<Op.Operation>, g: Rendering)
    ensures ParametersFollowRoutes(Fold(ops, g))
  {
    if ops != [] {
      FoldKeepsParameters(ops[..|ops| - 1], g);
      StepKeepsParameters(Fold(ops[..|ops| - 1], g), ops[|ops| - 1], g);
    }
  }

  /** The routes are exactly the paths starting with `/` of some
      operation. */
  lemma {:induction false} FoldRoutes(ops: seq<Op.Operation>, g: Rendering, p: string)
    ensures IM.HasKey(Fold(ops, g), p) <==> StartsWith(p, "/") && exists i :: 0 <= i < |ops| && ops[i].path == p
  {
    if ops != [] {
      var n := |ops| - 1;
      var prev := Fold(ops[..n], g);
      FoldRoutes(ops[..n], g, p);
      StepRoutes(prev, ops[n], g, p);
      if exists i :: 0 <= i < |ops| && ops[i].path == p {
        var i :| 0 <= i < |ops| && ops[i].path == p;
        if i < n { assert ops[..n][i] == ops[i]; }
      }
      if exists i :: 0 <= i < n && ops[..n][i].path == p {
        var i :| 0 <= i < n && ops[..n][i].path == p;
        assert ops[i] == ops[..n][i];
      }
    }
  }

  lemma StepRoutes(paths: Paths, op: Op.Operation, g: Rendering, p: string)
    ensures IM.HasKey(Step(paths, op, g), p) <==> IM.HasKey(paths, p) || (StartsWith(op.path, "/") && op.path == p)
  {
    if StartsWith(op.path, "/") {
      var ps := IM.InsertIfAbsent(paths, op.path, NewPathItem(op.path));
      IM.GetInsertIfAbsent(paths, op.path, NewPathItem(op.path), p);
      match IM.Get(ps, op.path)
      case None =>
      case Some(item) =>
        IM.HasKeyInsert(ps, op.path, SetSlot(item, op.httpMethod, Render(op, g)), p);
    }
  }

  /** The last operation on `p` with method `m`. */
  function LastOperation(ops: seq<Op.Operation>, p: string, m: Op.Method): (r: Option<Op.Operation>)
    ensures r.Some? ==> r.value in ops && r.value.path == p && r.value.httpMethod == m
    ensures r.None? <==> forall i :: 0 <= i < |ops| ==> !(ops[i].path == p && ops[i].httpMethod == m)
  {
    if ops == [] then None
    else
      var o := ops[|ops| - 1];
      if o.path == p && o.httpMethod == m then Some(o)
      else
        var r := LastOperation(ops[..|ops| - 1], p, m);
        assert forall i :: 0 <= i < |ops| - 1 ==> ops[i] == ops[..|ops| - 1][i];
        r
  }

  /** Each slot holds the rendering of the last operation on its route
      with its method; a later one overwrites it and leaves the other
      slots alone. */
  lemma {:induction false} FoldSlots(ops: seq<Op.Operation>, g: Rendering, p: string, m: Op.Method)
    requires IM.HasKey(Fold(ops, g), p)
    ensures Slot(IM.Get(Fold(ops, g), p).value, m) == MapOption(LastOperation(ops, p, m), (o: Op.Operation) => Render(o, g))
  {
    var n := |ops| - 1;
    var prev := Fold(ops[..n], g);
    var o := ops[n];
    FoldRoutes(ops, g, p);
    if !StartsWith(o.path, "/") || o.path != p {
      StepOtherRoute(prev, o, g, p);
      FoldRoutes(ops[..n], g, p);
      FoldSlots(ops[..n], g, p, m);
      if StartsWith(o.path, "/") {
        assert o.path != p;
      } else {
        assert o.path != p;
      }
    } else {
      StepSameRoute(prev, o, g, m);
      if o.httpMethod != m && IM.HasKey(prev, p) {
        FoldSlots(ops[..n], g, p, m);
      } else if o.httpMethod != m {
        FreshItemSlots(ops[..n], g, p, m);
      }
    }
  }

  /** A route first created by the last operation has no earlier
      operations. */
  lemma FreshItemSlots(ops: seq<Op.Operation>, g: Rendering, p: string, m: Op.Method)
    requires StartsWith(p, "/") && !IM.HasKey(Fold(ops, g), p)
    ensures LastOperation(ops, p, m).None?
  {
    FoldRoutes(ops, g, p);
  }

  lemma StepOtherRoute(paths: Paths, op: Op.Operation, g: Rendering, p: string)
    requires !StartsWith(op.path, "/") || op.path != p
    ensures IM.Get(Step(paths, op, g), p) == IM.Get(paths, p)
  {
    if StartsWith(op.path, "/") {
      var ps := IM.InsertIfAbsent(paths, op.path, NewPathItem(op.path));
      IM.GetInsertIfAbsent(paths, op.path, NewPathItem(op.path), p);
      match IM.Get(ps, op.path)
      case None =>
      case Some(item) =>
        IM.GetInsertOther(ps, op.path, SetSlot(item, op.httpMethod, Render(op, g)), p);
    }
  }

  lemma StepSameRoute(paths: Paths, op: Op.Operation, g: Rendering, m: Op.Method)
    requires StartsWith(op.path, "/")
    ensures IM.HasKey(Step(paths, op, g), op.path)
    ensures Slot(IM.Get(Step(paths, op, g), op.path).value, m)
      == if m == op.httpMethod then Some(Render(op, g))
         else if IM.HasKey(paths, op.path) then Slot(IM.Get(paths, op.path).value, m)
         else None
  {
    var p := op.path;
    var ps := IM.InsertIfAbsent(paths, p, NewPathItem(p));
    IM.GetInsertIfAbsent(paths, p, NewPathItem(p), p);
    var item := IM.Get(ps, p).value;
    IM.GetInsertSame(ps, p, SetSlot(item, op.httpMethod, Render(op, g)));
    IM.HasKeyInsert(ps, p, SetSlot(item, op.httpMethod, Render(op, g)), p);
  }
}
