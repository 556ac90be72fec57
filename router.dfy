/**
 * The dispatch engine of lib/router.js.
 *
 * A request is answered by a sequence of recorded effects instead of real I/O:
 * files sent, redirects, 404 pages, and the handlers invoked with the `req.path`
 * (and `req.qs` or `req.data`) they see.  Which handlers throw and which files
 * can be read are inputs (`Env`).  Every handler table is an insertion-ordered
 * table, scanned in order by the `for ... in` loops of the source.
 */
module Router {

  import opened Options
  import opened Js
  import opened Tables
  import opened Pattern

  /** A registered handler function, known by identity only. */
  datatype Handler = Handler(id: nat)

  /** What the router cannot see: which handlers throw, and the readable files with their contents. */
  datatype Env = Env(throwing: set<Handler>, files: map<string, string>)

  /** The five tables of a server (the error table keeps the source's spelling `erorrHandlers`). */
  datatype Routes = Routes(
    urlHandlers: Table<string>,
    getHandlers: Table<Handler>,
    postHandlers: Table<Handler>,
    erorrHandlers: Table<Handler>,
    blockMimes: Table<Handler>)

  /** What the response side records. */
  datatype Effect =
    | SendFile(file: string)                                   // res.sendFile(file)
    | Send404                                                  // the "Page not found." page
    | Redirect(location: string)                               // 302 with a Location header
    | ServeFile(file: string, content: string)                 // a URL rule's own file read
    | CallIndex(handler: Handler)                              // getHandlers["/"](req, res)
    | CallGet(handler: Handler, path: Table<string>, qs: Table<string>)
    | HtmlHead                                                 // writeHead(200, text/html)
    | CallPost(handler: Handler, path: Table<string>, data: Table<string>)
    | CallError(handler: Handler)                              // erorrHandlers.post(req, res, ex)
    | CallBlocked(handler: Handler)                            // blockMimes[ext](req, res)
    | Uncaught                                                 // an exception leaves the request callback

  /** The handlers a response invokes, in order. */
  function Invoked(effects: seq<Effect>): seq<Handler>
  {
    if effects == [] then []
    else
      var e := effects[0];
      (if e.CallIndex? || e.CallGet? || e.CallPost? || e.CallError? || e.CallBlocked? then [e.handler] else [])
      + Invoked(effects[1..])
  }

  lemma {:induction false} InvokedAppend(a: seq<Effect>, b: seq<Effect>)
    ensures Invoked(a + b) == Invoked(a) + Invoked(b)
    decreases |a|
  {
    if a != [] {
      assert (a + b)[1..] == a[1..] + b;
      InvokedAppend(a[1..], b);
    } else {
      assert a + b == b;
    }
  }

  /** Calling a handler: the call, then an escaping exception if it throws. */
  function Invoke(call: Effect, h: Handler, env: Env): seq<Effect>
  {
    [call] + (if h in env.throwing then [Uncaught] else [])
  }

  /** Calling `h` invokes `h` and nothing else, and sends no file. */
  lemma InvokeCalls(call: Effect, h: Handler, env: Env)
    requires (call.CallIndex? || call.CallGet? || call.CallPost? || call.CallError? || call.CallBlocked?) && call.handler == h
    ensures Invoked(Invoke(call, h, env)) == [h]
    ensures SendsNoFile(Invoke(call, h, env))
  {
    var tail: seq<Effect> := if h in env.throwing then [Uncaught] else [];
    InvokedAppend([call], tail);
    assert Invoked(tail) == [] by {
      if tail != [] {
        assert tail[1..] == [];
      }
    }
    assert [call][1..] == [];
  }

  /** Every key of `t` is one the model covers when compiled with name class `cls`. */
  predicate PlainTable<V>(t: Table<V>, cls: NameClass)
  {
    forall i :: 0 <= i < |t| ==> PlainKey(t[i].key, cls)
  }

  /** The tables GET dispatch reads: the GET table and the URL rules, both compiled without `.` names. */
  predicate GetRoutes(r: Routes)
  {
    PlainTable(r.getHandlers, RouteNames) && PlainTable(r.urlHandlers, RouteNames)
  }

  /** All three route tables, each under the name class its own compiler uses. */
  predicate PlainRoutes(r: Routes)
  {
    GetRoutes(r) && PlainTable(r.postHandlers, DottedNames)
  }

  /** The first entry from `i` on whose compiled key matches `path`, with its captures. */
  function FirstMatch<V>(t: Table<V>, cls: NameClass, path: string, i: nat): (r: Option<(nat, seq<string>)>)
    requires PlainTable(t, cls) && i <= |t|
    ensures r.Some? ==> i <= r.value.0 < |t| && Captures(t[r.value.0].key, cls, path) == Some(r.value.1)
    ensures r.Some? ==> forall j :: i <= j < r.value.0 ==> Captures(t[j].key, cls, path).None?
    ensures r.None? ==> forall j :: i <= j < |t| ==> Captures(t[j].key, cls, path).None?
    decreases |t| - i
  {
    if i == |t| then None
    else match Captures(t[i].key, cls, path)
      case Some(caps) => Some((i, caps))
      case None => FirstMatch(t, cls, path, i + 1)
  }

  /** The first match is the entry that matches with no earlier entry matching. */
  lemma FirstMatchIs<V>(t: Table<V>, cls: NameClass, path: string, i: nat)
    requires PlainTable(t, cls) && i < |t| && Captures(t[i].key, cls, path).Some?
    requires forall j :: 0 <= j < i ==> Captures(t[j].key, cls, path).None?
    ensures FirstMatch(t, cls, path, 0) == Some((i, Captures(t[i].key, cls, path).value))
  {
  }

  // ---------------------------------------------------------------------------
  // Capture names and bound parameters

  /** The names the collector keeps: the first nine, scanning with the dotted name class. */
  function Collected(key: string): seq<string>
  {
    var n := Names(key, DottedNames);
    if |n| <= 9 then n else n[..9]
  }

  /** The collector loop: find the leftmost `/:name`, push the name, rewrite that segment. */
  method CollectNames(key: string) returns (keys: seq<string>)
    ensures keys == Collected(key)
  {
    var k := key;
    keys := [];
    var i := 1;
    while i < 10
      invariant 1 <= i <= 10 && |keys| == i - 1
      invariant keys + Names(k, DottedNames) == Names(key, DottedNames)
    {
      CollectStep(k, DottedNames);
      var p := FindCapture(k);
      if p.None? {
        break;
      }
      keys := keys + [NameAtMarker(k, p.value, DottedNames)];
      k := ReplaceMarker(k, p.value, DottedNames);
      i := i + 1;
    }
    assert Names(key, DottedNames)[..|keys|] == keys;
  }

  /** `keys[j]`, or `"undefined"` (what an out-of-range index becomes as a property name). */
  function NameAt(names: seq<string>, j: nat): string
  {
    if j < |names| then names[j] else "undefined"
  }

  /** `RegExp.$(j+1)`: the capture, or `""` for a group the pattern does not have. */
  function CaptureAt(caps: seq<string>, j: nat): string
  {
    if j < |caps| then caps[j] else ""
  }

  /** `req.path` after the first `n` rounds of the binding loop. */
  function BindUpTo(names: seq<string>, caps: seq<string>, n: nat): Table<string>
  {
    if n == 0 then []
    else
      var t := BindUpTo(names, caps, n - 1);
      if CaptureAt(caps, n - 1) != "" then Put(t, NameAt(names, n - 1), CaptureAt(caps, n - 1)) else t
  }

  /** `req.path` as the router builds it: rounds 1 to 9. */
  function Bind(names: seq<string>, caps: seq<string>): Table<string>
  {
    BindUpTo(names, caps, 9)
  }

  method BindCaptures(names: seq<string>, caps: seq<string>) returns (params: Table<string>)
    ensures params == Bind(names, caps)
  {
    params := [];
    var i := 1;
    while i < 10
      invariant 1 <= i <= 10
      invariant params == BindUpTo(names, caps, i - 1)
    {
      if CaptureAt(caps, i - 1) != "" {
        params := Put(params, NameAt(names, i - 1), CaptureAt(caps, i - 1));
      }
      i := i + 1;
    }
  }

  /** Round `j + 1` of the binding loop writes `k`. */
  predicate Bound(names: seq<string>, caps: seq<string>, j: nat, k: string)
  {
    CaptureAt(caps, j) != "" && NameAt(names, j) == k
  }

  lemma BindStep(names: seq<string>, caps: seq<string>, n: nat)
    requires n > 0
    ensures BindUpTo(names, caps, n) ==
      if CaptureAt(caps, n - 1) != "" then Put(BindUpTo(names, caps, n - 1), NameAt(names, n - 1), CaptureAt(caps, n - 1))
      else BindUpTo(names, caps, n - 1)
  {
  }

  /** Round `n` of the binding loop adds only its own name. */
  lemma BindAddsOwnKey(names: seq<string>, caps: seq<string>, n: nat, k: string)
    requires n > 0
    ensures k in Keys(BindUpTo(names, caps, n)) <==>
      k in Keys(BindUpTo(names, caps, n - 1)) || Bound(names, caps, n - 1, k)
  {
    BindStep(names, caps, n);
    if CaptureAt(caps, n - 1) != "" {
      PutKeysMember(BindUpTo(names, caps, n - 1), NameAt(names, n - 1), CaptureAt(caps, n - 1), k);
    }
  }

  lemma BindAddsNothingElse(names: seq<string>, caps: seq<string>, n: nat, k: string)
    requires n > 0 && !Bound(names, caps, n - 1, k) && k !in Keys(BindUpTo(names, caps, n - 1))
    ensures k !in Keys(BindUpTo(names, caps, n))
  {
    BindAddsOwnKey(names, caps, n, k);
  }

  /** A non-empty capture among the first nine binds its name. */
  lemma {:induction false} BindKeysIf(names: seq<string>, caps: seq<string>, n: nat, k: string, j: nat)
    requires j < n && Bound(names, caps, j, k)
    ensures k in Keys(BindUpTo(names, caps, n))
    decreases n
  {
    BindAddsOwnKey(names, caps, n, k);
    if j < n - 1 {
      BindKeysIf(names, caps, n - 1, k, j);
    }
  }

  /** The property names of `req.path` in creation order. */
  function BoundKeys(names: seq<string>, caps: seq<string>, n: nat): seq<string>
  {
    if n == 0 then []
    else
      var ks := BoundKeys(names, caps, n - 1);
      if CaptureAt(caps, n - 1) != "" && NameAt(names, n - 1) !in ks then ks + [NameAt(names, n - 1)] else ks
  }

  lemma {:induction false} BindKeyOrder(names: seq<string>, caps: seq<string>, n: nat)
    ensures Keys(BindUpTo(names, caps, n)) == BoundKeys(names, caps, n)
    decreases n
  {
    if n > 0 {
      BindKeyOrder(names, caps, n - 1);
      BindStep(names, caps, n);
      if CaptureAt(caps, n - 1) != "" {
        PutKeys(BindUpTo(names, caps, n - 1), NameAt(names, n - 1), CaptureAt(caps, n - 1));
      }
    }
  }

  lemma {:induction false} BoundKeysOnlyIf(names: seq<string>, caps: seq<string>, n: nat, k: string)
    requires forall j :: 0 <= j < n ==> !Bound(names, caps, j, k)
    ensures k !in BoundKeys(names, caps, n)
    decreases n
  {
    if n > 0 {
      assert !Bound(names, caps, n - 1, k);
      BoundKeysOnlyIf(names, caps, n - 1, k);
    }
  }

  /** A name without a non-empty capture among the first nine is not bound at all. */
  lemma BindKeysOnlyIf(names: seq<string>, caps: seq<string>, n: nat, k: string)
    requires forall j :: 0 <= j < n ==> !Bound(names, caps, j, k)
    ensures k !in Keys(BindUpTo(names, caps, n))
  {
    BindKeyOrder(names, caps, n);
    BoundKeysOnlyIf(names, caps, n, k);
  }

  /** Round `n` of the binding loop writes its own name ... */
  lemma BindOwnRound(names: seq<string>, caps: seq<string>, n: nat, k: string)
    requires n > 0 && Bound(names, caps, n - 1, k)
    ensures Lookup(BindUpTo(names, caps, n), k) == Some(CaptureAt(caps, n - 1))
  {
    BindStep(names, caps, n);
    PutLookup(BindUpTo(names, caps, n - 1), k, CaptureAt(caps, n - 1));
  }

  /** ... and no other. */
  lemma BindOtherRound(names: seq<string>, caps: seq<string>, n: nat, k: string)
    requires n > 0 && !Bound(names, caps, n - 1, k)
    ensures Lookup(BindUpTo(names, caps, n), k) == Lookup(BindUpTo(names, caps, n - 1), k)
  {
    BindStep(names, caps, n);
    if CaptureAt(caps, n - 1) != "" {
      PutOther(BindUpTo(names, caps, n - 1), NameAt(names, n - 1), CaptureAt(caps, n - 1), k);
    }
  }

  /** Rounds after `j + 1` that do not write `k` keep its value. */
  lemma {:induction false} BindKeeps(names: seq<string>, caps: seq<string>, n: nat, j: nat, k: string)
    requires j < n
    requires forall j' :: j < j' < n ==> !Bound(names, caps, j', k)
    ensures Lookup(BindUpTo(names, caps, n), k) == Lookup(BindUpTo(names, caps, j + 1), k)
    decreases n
  {
    if j + 1 < n {
      BindKeeps(names, caps, n - 1, j, k);
      BindOtherRound(names, caps, n, k);
    }
  }

  /** The value bound to a name is its last non-empty capture. */
  lemma BindValue(names: seq<string>, caps: seq<string>, n: nat, j: nat, k: string)
    requires j < n && Bound(names, caps, j, k)
    requires forall j' :: j < j' < n ==> !Bound(names, caps, j', k)
    ensures Lookup(BindUpTo(names, caps, n), k) == Some(CaptureAt(caps, j))
  {
    BindKeeps(names, caps, n, j, k);
    BindOwnRound(names, caps, j + 1, k);
  }

  /** With distinct names, `req.path[name]` is that segment's capture, when non-empty. */
  lemma BindDistinct(names: seq<string>, caps: seq<string>, j: nat)
    requires j < |names| && j < 9
    requires forall a, b :: 0 <= a < b < |names| ==> names[a] != names[b]
    requires |caps| <= |names| || |names| >= 9
    ensures CaptureAt(caps, j) != "" ==> Lookup(Bind(names, caps), names[j]) == Some(CaptureAt(caps, j))
    ensures CaptureAt(caps, j) == "" ==> names[j] !in Keys(Bind(names, caps))
  {
    forall j' | 0 <= j' < 9 && j' != j ensures !Bound(names, caps, j', names[j]) {
      if j' < |names| {
        assert names[j'] != names[j] by {
          if j' < j {
            assert names[j'] != names[j];
          }
        }
      }
    }
    if CaptureAt(caps, j) != "" {
      BindValue(names, caps, 9, j, NameAt(names, j));
    } else {
      BindKeysOnlyIf(names, caps, 9, names[j]);
    }
  }

  // ---------------------------------------------------------------------------
  // URL-rule targets

  /** The text `$n` for a digit `n` from 1 to 9. */
  function Placeholder(n: nat): string
    requires 1 <= n <= 9
  {
    ['$', ('0' as int + n) as char]
  }

  /** The target after the first `n` rounds of the substitution loop. */
  function SubstUpTo(target: string, caps: seq<string>, n: nat): string
    requires n <= 9
  {
    if n == 0 then target
    else
      var t := SubstUpTo(target, caps, n - 1);
      if CaptureAt(caps, n - 1) != "" then ReplaceFirst(t, Placeholder(n), CaptureAt(caps, n - 1)) else t
  }

  function Substituted(target: string, caps: seq<string>): string
  {
    SubstUpTo(target, caps, 9)
  }

  method SubstituteCaptures(target: string, caps: seq<string>) returns (scriptfile: string)
    ensures scriptfile == Substituted(target, caps)
  {
    scriptfile := target;
    var i := 1;
    while i < 10
      invariant 1 <= i <= 10
      invariant scriptfile == SubstUpTo(target, caps, i - 1)
    {
      if CaptureAt(caps, i - 1) != "" {
        scriptfile := ReplaceFirst(scriptfile, Placeholder(i), CaptureAt(caps, i - 1));
      }
      i := i + 1;
    }
  }

  lemma NoOccurrenceWithoutFirst(s: string, pat: string)
    requires pat != [] && pat[0] !in s
    ensures IndexOf(s, pat).None?
  {
  }

  /** A target without `$` is left as it is. */
  lemma {:induction false} SubstituteNoDollar(target: string, caps: seq<string>, n: nat)
    requires n <= 9 && '$' !in target
    ensures SubstUpTo(target, caps, n) == target
  {
    if n > 0 {
      SubstituteNoDollar(target, caps, n - 1);
      NoOccurrenceWithoutFirst(target, Placeholder(n));
    }
  }

  /** Empty captures substitute nothing: their `$n` stays in the target. */
  lemma {:induction false} SubstituteEmptyCaptures(target: string, caps: seq<string>, n: nat)
    requires n <= 9 && forall j :: 0 <= j < |caps| ==> caps[j] == ""
    ensures SubstUpTo(target, caps, n) == target
  {
    if n > 0 {
      SubstituteEmptyCaptures(target, caps, n - 1);
    }
  }

  /** The first `$1` is filled by the rule's one capture; any later `$1` stays as it is. */
  lemma SubstituteOne(a: string, b: string, c: string)
    requires '$' !in a && '$' !in c && c != ""
    ensures Substituted(a + "$1" + b, [c]) == a + c + b
  {
    var t := a + "$1" + b;
    assert OccursAt(t, "$1", |a|) by {
      assert t[|a|..|a| + 2] == "$1";
    }
    forall j | 0 <= j < |a| ensures !OccursAt(t, "$1", j) {
      assert t[j] == a[j];
    }
    assert IndexOf(t, "$1") == Some(|a|);
    ReplaceFirstSpec(t, "$1", c);
    assert t[..|a|] == a && t[|a| + 2..] == b;
    assert Placeholder(1) == "$1";
    assert SubstUpTo(t, [c], 1) == a + c + b;
    SubstituteSkipsEmpty(t, [c], 9, 1);
  }

  /** Rounds whose capture is empty change nothing. */
  lemma {:induction false} SubstituteSkipsEmpty(target: string, caps: seq<string>, n: nat, m: nat)
    requires m <= n <= 9
    requires forall j :: m <= j < n ==> CaptureAt(caps, j) == ""
    ensures SubstUpTo(target, caps, n) == SubstUpTo(target, caps, m)
    decreases n
  {
    if n > m {
      SubstituteSkipsEmpty(target, caps, n - 1, m);
    }
  }

  // ---------------------------------------------------------------------------
  // fileHandler

  /** The last piece of `path.split('.')`: the text after the last dot, or all of it. */
  function Extension(path: string): (r: string)
    ensures '.' !in r && |r| <= |path| && r == path[|path| - |r|..]
    ensures '.' !in path ==> r == path
    ensures '.' in path ==> |r| < |path| && path[|path| - |r| - 1] == '.'
    decreases |path|
  {
    if '.' !in path then path
    else if '.' in path[1..] then Extension(path[1..])
    else
      assert path == [path[0]] + path[1..];
      path[1..]
  }

  /** `/.\//.test(path)`: some `/` follows a character other than a line terminator. */
  predicate HasInnerSlash(path: string)
  {
    exists i :: 1 <= i < |path| && path[i] == '/' && !IsLineTerminator(path[i - 1])
  }

  /** What fileHandler does with a path no rule claimed. */
  function FileOutcome(routes: Routes, env: Env, path: string): seq<Effect>
  {
    match Lookup(routes.blockMimes, Extension(path))
    case Some(h) => Invoke(CallBlocked(h), h, env)
    case None =>
      if '.' !in path then
        if HasInnerSlash(path) then [SendFile(path + "index.html")] else [SendFile(path + "/index.html")]
      else [SendFile(path)]
  }

  // ---------------------------------------------------------------------------
  // urlHandler

  predicate StartsWithHttp(s: string)
  {
    |s| >= 4 && s[..4] == "http"
  }

  /** The result of the rule scan: what the first matching rule answers, or fileHandler's. */
  function UrlOutcome(routes: Routes, env: Env, path: string): seq<Effect>
    requires PlainTable(routes.urlHandlers, RouteNames)
  {
    match FirstMatch(routes.urlHandlers, RouteNames, path, 0)
    case None => FileOutcome(routes, env, path)
    case Some(m) =>
      var target := Substituted(routes.urlHandlers[m.0].value, m.1);
      if StartsWithHttp(target) then [Redirect(target)]
      else if target in env.files then [ServeFile(target, env.files[target])]
      else [Send404]
  }

  method UrlHandler(routes: Routes, env: Env, path: string) returns (effects: seq<Effect>)
    requires PlainTable(routes.urlHandlers, RouteNames)
    ensures effects == UrlOutcome(routes, env, path)
  {
    var scriptfile: Option<string> := None;
    var i := 0;
    while i < |routes.urlHandlers|
      invariant 0 <= i <= |routes.urlHandlers|
      invariant scriptfile.None?
      invariant forall j :: 0 <= j < i ==> Captures(routes.urlHandlers[j].key, RouteNames, path).None?
    {
      var e := routes.urlHandlers[i];
      var caps := Captures(e.key, RouteNames, path);
      if caps.Some? {
        FirstMatchIs(routes.urlHandlers, RouteNames, path, i);
        var t := SubstituteCaptures(e.value, caps.value);
        scriptfile := Some(t);
        break;
      }
      i := i + 1;
    }
    if scriptfile.Some? && StartsWithHttp(scriptfile.value) {
      effects := [Redirect(scriptfile.value)];
      return;
    }
    if scriptfile.Some? {
      if scriptfile.value in env.files {
        effects := [ServeFile(scriptfile.value, env.files[scriptfile.value])];
      } else {
        effects := [Send404];
      }
    } else {
      effects := FileOutcome(routes, env, path);
    }
  }

  // ---------------------------------------------------------------------------
  // getHandler

  /** The empty path: a `"/"` rule's file, else the `"/"` GET handler, else index.html. */
  function IndexOutcome(routes: Routes, env: Env): seq<Effect>
  {
    match Lookup(routes.urlHandlers, "/")
    case Some(f) => [SendFile(f)]
    case None =>
      match Lookup(routes.getHandlers, "/")
      case Some(h) => Invoke(CallIndex(h), h, env)
      case None => [SendFile("index.html")]
  }

  /** Any other path: the first matching GET key's handler, else the URL rules. */
  function ScanOutcome(routes: Routes, env: Env, path: string, qs: Table<string>): seq<Effect>
    requires GetRoutes(routes)
  {
    match FirstMatch(routes.getHandlers, RouteNames, path, 0)
    case None => UrlOutcome(routes, env, path)
    case Some(m) =>
      var e := routes.getHandlers[m.0];
      Invoke(CallGet(e.value, Bind(Collected(e.key), m.1), qs), e.value, env)
  }

  function GetOutcome(routes: Routes, env: Env, path: string, qs: Table<string>): seq<Effect>
    requires GetRoutes(routes)
  {
    if path == "" then IndexOutcome(routes, env)
    else if path == "favicon.ico" then [SendFile("favicon.ico")]
    else ScanOutcome(routes, env, path, qs)
  }

  method GetHandler(routes: Routes, env: Env, path: string, qs: Table<string>) returns (effects: seq<Effect>)
    requires GetRoutes(routes)
    ensures effects == GetOutcome(routes, env, path, qs)
  {
    if path == "" {
      effects := IndexHandler(routes, env);
    } else if path == "favicon.ico" {
      effects := [SendFile("favicon.ico")];
    } else {
      effects := GetScan(routes, env, path, qs);
    }
  }

  /** The `case "":` branch. */
  method IndexHandler(routes: Routes, env: Env) returns (effects: seq<Effect>)
    ensures effects == IndexOutcome(routes, env)
  {
    var rule := Lookup(routes.urlHandlers, "/");
    var index := Lookup(routes.getHandlers, "/");
    if rule.Some? {
      effects := [SendFile(rule.value)];
    } else if index.Some? {
      effects := [CallIndex(index.value)];
      if index.value in env.throwing {
        effects := effects + [Uncaught];
      }
    } else {
      effects := [SendFile("index.html")];
    }
  }

  /** The `default:` branch: the GET scan, then the URL rules. */
  method GetScan(routes: Routes, env: Env, path: string, qs: Table<string>) returns (effects: seq<Effect>)
    requires GetRoutes(routes)
    ensures effects == ScanOutcome(routes, env, path, qs)
  {
    var i := 0;
    while i < |routes.getHandlers|
      invariant 0 <= i <= |routes.getHandlers|
      invariant forall j :: 0 <= j < i ==> Captures(routes.getHandlers[j].key, RouteNames, path).None?
    {
      if Captures(routes.getHandlers[i].key, RouteNames, path).Some? {
        effects := GetCall(routes, env, path, qs, i);
        return;
      }
      i := i + 1;
    }
    assert FirstMatch(routes.getHandlers, RouteNames, path, 0).None?;
    effects := UrlHandler(routes, env, path);
  }

  /** Key `i` is the first to match: bind its captures and call its handler. */
  method GetCall(routes: Routes, env: Env, path: string, qs: Table<string>, i: nat) returns (effects: seq<Effect>)
    requires GetRoutes(routes)
    requires i < |routes.getHandlers| && Captures(routes.getHandlers[i].key, RouteNames, path).Some?
    requires forall j :: 0 <= j < i ==> Captures(routes.getHandlers[j].key, RouteNames, path).None?
    ensures effects == ScanOutcome(routes, env, path, qs)
  {
    var e := routes.getHandlers[i];
    var caps := Captures(e.key, RouteNames, path);
    FirstMatchIs(routes.getHandlers, RouteNames, path, i);
    var keys := CollectNames(e.key);
    var params := BindCaptures(keys, caps.value);
    effects := [CallGet(e.value, params, qs)];
    if e.value in env.throwing {
      // the catch block reads `server.errorHandler.get`, which throws again
      effects := effects + [Uncaught];
    }
  }

  // ---------------------------------------------------------------------------
  // postHandler

  /** A throwing POST handler: the `post` error handler if there is one, else the 404 page. */
  function PostFailure(routes: Routes, env: Env): seq<Effect>
  {
    match Lookup(routes.erorrHandlers, "post")
    case Some(h) => Invoke(CallError(h), h, env)
    case None => [Send404]
  }

  /** What one POST entry does for a path: nothing, or a call with the bound captures. */
  datatype PostHit = Miss | Hit(handler: Handler, params: Table<string>)

  function PostHitAt(routes: Routes, path: string, i: nat): PostHit
    requires PlainTable(routes.postHandlers, DottedNames) && i < |routes.postHandlers|
  {
    var e := routes.postHandlers[i];
    match Captures(e.key, DottedNames, path)
    case None => Miss
    case Some(caps) => Hit(e.value, Bind(Collected(e.key), caps))
  }

  /** The hits of every POST entry, in registration order. */
  function PostHits(routes: Routes, path: string): seq<PostHit>
    requires PlainTable(routes.postHandlers, DottedNames)
  {
    seq(|routes.postHandlers|, k requires 0 <= k < |routes.postHandlers| => PostHitAt(routes, path, k))
  }

  /** `hits` holds the hit of every POST entry, in registration order. */
  predicate HitsOf(routes: Routes, path: string, hits: seq<PostHit>)
    requires PlainTable(routes.postHandlers, DottedNames)
  {
    && |hits| == |routes.postHandlers|
    && forall k {:trigger PostHitAt(routes, path, k)} :: 0 <= k < |hits| ==> hits[k] == PostHitAt(routes, path, k)
  }

  lemma PostHitsOf(routes: Routes, path: string)
    requires PlainTable(routes.postHandlers, DottedNames)
    ensures HitsOf(routes, path, PostHits(routes, path))
  {
  }

  /** The POST scan from hit `i` on: every hit runs, until one throws. */
  function PostRun(hits: seq<PostHit>, env: Env, failure: seq<Effect>, data: Table<string>, i: nat): seq<Effect>
    requires i <= |hits|
    decreases |hits| - i
  {
    if i == |hits| then []
    else
      match hits[i]
      case Miss => PostRun(hits, env, failure, data, i + 1)
      case Hit(h, params) =>
        var call := [HtmlHead, CallPost(h, params, data)];
        if h in env.throwing then call + failure
        else call + PostRun(hits, env, failure, data, i + 1)
  }

  /** Everything a POST request to `path` does. */
  function PostOutcome(routes: Routes, env: Env, path: string, data: Table<string>): seq<Effect>
    requires PlainTable(routes.postHandlers, DottedNames)
  {
    PostRun(PostHits(routes, path), env, PostFailure(routes, env), data, 0)
  }

  /** Tests POST entry `i` against the path and binds its captures. */
  method PostEntry(routes: Routes, path: string, i: nat, ghost hits: seq<PostHit>) returns (hit: PostHit)
    requires PlainTable(routes.postHandlers, DottedNames) && i < |routes.postHandlers|
    requires HitsOf(routes, path, hits)
    ensures hit == hits[i]
  {
    assert hits[i] == PostHitAt(routes, path, i);
    var e := routes.postHandlers[i];
    var keys := CollectNames(e.key);
    var caps := Captures(e.key, DottedNames, path);
    if caps.Some? {
      var params := BindCaptures(keys, caps.value);
      hit := Hit(e.value, params);
    } else {
      hit := Miss;
    }
  }

  method PostHandler(routes: Routes, env: Env, path: string, data: Table<string>) returns (effects: seq<Effect>)
    requires PlainTable(routes.postHandlers, DottedNames)
    ensures effects == PostOutcome(routes, env, path, data)
  {
    PostHitsOf(routes, path);
    effects := PostScan(routes, env, path, data, PostHits(routes, path));
  }

  /** The loop of postHandler, over the table with the hits its entries give. */
  method PostScan(routes: Routes, env: Env, path: string, data: Table<string>, ghost hits: seq<PostHit>)
    returns (effects: seq<Effect>)
    requires PlainTable(routes.postHandlers, DottedNames) && HitsOf(routes, path, hits)
    ensures effects == PostRun(hits, env, PostFailure(routes, env), data, 0)
  {
    ghost var failure := PostFailure(routes, env);
    effects := [];
    var i := 0;
    while i < |routes.postHandlers|
      invariant 0 <= i <= |routes.postHandlers|
      invariant effects + PostRun(hits, env, failure, data, i) == PostRun(hits, env, failure, data, 0)
    {
      var hit := PostEntry(routes, path, i, hits);
      var out, stop := PostStep(routes, env, data, hit, hits, i);
      ghost var rest := PostRun(hits, env, failure, data, i);
      if stop {
        effects := effects + out;
        return;
      }
      ghost var later := PostRun(hits, env, failure, data, i + 1);
      AppendStep(effects, out, later, rest, PostRun(hits, env, failure, data, 0));
      effects := effects + out;
      i := i + 1;
    }
    assert effects + [] == effects;
  }

  /** The loop's accounting: what is emitted so far plus what remains is the whole answer. */
  lemma AppendStep(done: seq<Effect>, out: seq<Effect>, later: seq<Effect>, rest: seq<Effect>, whole: seq<Effect>)
    requires done + rest == whole && out + later == rest
    ensures (done + out) + later == whole
  {
    assert (done + out) + later == done + (out + later);
  }

  /** What one hit adds to the response, and whether its throw ends the scan. */
  method PostStep(routes: Routes, env: Env, data: Table<string>, hit: PostHit, ghost hits: seq<PostHit>, ghost i: nat)
    returns (out: seq<Effect>, stop: bool)
    requires i < |hits| && hits[i] == hit
    ensures stop ==> out == PostRun(hits, env, PostFailure(routes, env), data, i)
    ensures !stop ==>
      out + PostRun(hits, env, PostFailure(routes, env), data, i + 1) == PostRun(hits, env, PostFailure(routes, env), data, i)
  {
    out := [];
    stop := false;
    if hit.Hit? {
      out := [HtmlHead, CallPost(hit.handler, hit.params, data)];
      if hit.handler in env.throwing {
        var eh := Lookup(routes.erorrHandlers, "post");
        if eh.Some? {
          out := out + [CallError(eh.value)];
          if eh.value in env.throwing {
            out := out + [Uncaught];
          }
        } else {
          out := out + [Send404];
        }
        stop := true;
      }
    } else {
      assert out + PostRun(hits, env, PostFailure(routes, env), data, i + 1) == PostRun(hits, env, PostFailure(routes, env), data, i + 1);
    }
  }

  // ---------------------------------------------------------------------------
  // What the dispatch promises

  /** The empty path: a `"/"` rule wins over a `"/"` GET handler, which wins over index.html. */
  lemma EmptyPathSelection(routes: Routes, env: Env, qs: Table<string>)
    requires GetRoutes(routes)
    ensures Lookup(routes.urlHandlers, "/").Some? ==>
      GetOutcome(routes, env, "", qs) == [SendFile(Lookup(routes.urlHandlers, "/").value)]
    ensures Lookup(routes.urlHandlers, "/").None? && Lookup(routes.getHandlers, "/").Some? ==>
      Invoked(GetOutcome(routes, env, "", qs)) == [Lookup(routes.getHandlers, "/").value]
    ensures Lookup(routes.urlHandlers, "/").None? && Lookup(routes.getHandlers, "/").None? ==>
      GetOutcome(routes, env, "", qs) == [SendFile("index.html")]
  {
    if Lookup(routes.urlHandlers, "/").None? && Lookup(routes.getHandlers, "/").Some? {
      var h := Lookup(routes.getHandlers, "/").value;
      InvokeCalls(CallIndex(h), h, env);
    }
  }

  /** `favicon.ico` is answered without looking at any table or the environment. */
  lemma FaviconIgnoresTables(r1: Routes, r2: Routes, env1: Env, env2: Env, qs1: Table<string>, qs2: Table<string>)
    requires GetRoutes(r1) && GetRoutes(r2)
    ensures GetOutcome(r1, env1, "favicon.ico", qs1) == GetOutcome(r2, env2, "favicon.ico", qs2) == [SendFile("favicon.ico")]
  {
  }

  /**
   * GET: the first matching key's handler is the only handler invoked, with the
   * bound captures and the query string; a throw escapes regardless of any error
   * handler that was registered.
   */
  lemma {:induction false} GetFirstMatchWins(routes: Routes, env: Env, path: string, qs: Table<string>, i: nat)
    requires GetRoutes(routes) && path != "" && path != "favicon.ico"
    requires i < |routes.getHandlers| && Captures(routes.getHandlers[i].key, RouteNames, path).Some?
    requires forall j :: 0 <= j < i ==> Captures(routes.getHandlers[j].key, RouteNames, path).None?
    ensures var e := routes.getHandlers[i];
      var params := Bind(Collected(e.key), Captures(e.key, RouteNames, path).value);
      GetOutcome(routes, env, path, qs)
        == [CallGet(e.value, params, qs)] + (if e.value in env.throwing then [Uncaught] else [])
    ensures Invoked(GetOutcome(routes, env, path, qs)) == [routes.getHandlers[i].value]
  {
    FirstMatchIs(routes.getHandlers, RouteNames, path, i);
    var e := routes.getHandlers[i];
    var params := Bind(Collected(e.key), Captures(e.key, RouteNames, path).value);
    InvokeCalls(CallGet(e.value, params, qs), e.value, env);
  }

  /** The GET outcome never depends on the error-handler table: `erorrHandlers.get` is never read. */
  lemma GetIgnoresErrorHandlers(routes: Routes, errors: Table<Handler>, env: Env, path: string, qs: Table<string>)
    requires GetRoutes(routes)
    ensures GetOutcome(routes.(erorrHandlers := errors), env, path, qs) == GetOutcome(routes, env, path, qs)
  {
  }

  /** With no matching GET key, the request goes on to the URL rules with the same path. */
  lemma GetFallsThroughToUrl(routes: Routes, env: Env, path: string, qs: Table<string>)
    requires GetRoutes(routes) && path != "" && path != "favicon.ico"
    requires forall j :: 0 <= j < |routes.getHandlers| ==> Captures(routes.getHandlers[j].key, RouteNames, path).None?
    ensures GetOutcome(routes, env, path, qs) == UrlOutcome(routes, env, path)
  {
  }

  /** A `"/"` GET key matches every path, so no key after it is ever dispatched. */
  lemma {:induction false} SlashKeyShadows(routes: Routes, env: Env, path: string, qs: Table<string>, i: nat)
    requires GetRoutes(routes) && path != "" && path != "favicon.ico"
    requires i < |routes.getHandlers| && routes.getHandlers[i].key == "/"
    ensures FirstMatch(routes.getHandlers, RouteNames, path, 0).Some?
    ensures FirstMatch(routes.getHandlers, RouteNames, path, 0).value.0 <= i
  {
    SlashMatchesEverything(RouteNames, path);
  }

  /** The first matching URL rule decides; a target starting with `http` redirects without reading any file. */
  lemma {:induction false} UrlFirstRuleWins(routes: Routes, env: Env, path: string, i: nat)
    requires PlainTable(routes.urlHandlers, RouteNames)
    requires i < |routes.urlHandlers| && Captures(routes.urlHandlers[i].key, RouteNames, path).Some?
    requires forall j :: 0 <= j < i ==> Captures(routes.urlHandlers[j].key, RouteNames, path).None?
    ensures var target := Substituted(routes.urlHandlers[i].value, Captures(routes.urlHandlers[i].key, RouteNames, path).value);
      && (StartsWithHttp(target) ==> UrlOutcome(routes, env, path) == [Redirect(target)])
      && (!StartsWithHttp(target) && target in env.files ==> UrlOutcome(routes, env, path) == [ServeFile(target, env.files[target])])
      && (!StartsWithHttp(target) && target !in env.files ==> UrlOutcome(routes, env, path) == [Send404])
  {
    FirstMatchIs(routes.urlHandlers, RouteNames, path, i);
  }

  /** A redirecting rule gives the same answer whatever files exist. */
  lemma UrlRedirectReadsNoFile(routes: Routes, env: Env, files: map<string, string>, path: string)
    requires PlainTable(routes.urlHandlers, RouteNames)
    requires UrlOutcome(routes, env, path) != [] && UrlOutcome(routes, env, path)[0].Redirect?
    ensures UrlOutcome(routes, env.(files := files), path) == UrlOutcome(routes, env, path)
  {
  }

  /** With no matching URL rule, fileHandler answers. */
  lemma UrlFallsToFile(routes: Routes, env: Env, path: string)
    requires PlainTable(routes.urlHandlers, RouteNames)
    requires forall j :: 0 <= j < |routes.urlHandlers| ==> Captures(routes.urlHandlers[j].key, RouteNames, path).None?
    ensures UrlOutcome(routes, env, path) == FileOutcome(routes, env, path)
  {
  }

  predicate SendsNoFile(effects: seq<Effect>)
  {
    forall k :: 0 <= k < |effects| ==> !effects[k].SendFile?
  }

  /** A blocked extension runs only its handler and never sends a file. */
  lemma FileBlockedNeverServes(routes: Routes, env: Env, path: string)
    requires Lookup(routes.blockMimes, Extension(path)).Some?
    ensures SendsNoFile(FileOutcome(routes, env, path))
    ensures Invoked(FileOutcome(routes, env, path)) == [Lookup(routes.blockMimes, Extension(path)).value]
  {
    var h := Lookup(routes.blockMimes, Extension(path)).value;
    InvokeCalls(CallBlocked(h), h, env);
  }

  /** An unblocked path: a dotted path is sent as is, a dotless one as a directory index. */
  lemma FileUnblocked(routes: Routes, env: Env, path: string)
    requires Lookup(routes.blockMimes, Extension(path)).None?
    ensures '.' in path ==> FileOutcome(routes, env, path) == [SendFile(path)]
    ensures '.' !in path && HasInnerSlash(path) ==> FileOutcome(routes, env, path) == [SendFile(path + "index.html")]
    ensures '.' !in path && !HasInnerSlash(path) ==> FileOutcome(routes, env, path) == [SendFile(path + "/index.html")]
  {
  }

  /** `"a/b"` has a slash after a character, so its index file is `"a/bindex.html"`. */
  lemma FileInnerSlashIndex(routes: Routes, env: Env)
    requires Lookup(routes.blockMimes, "a/b").None?
    ensures FileOutcome(routes, env, "a/b") == [SendFile("a/bindex.html")]
  {
    assert "a/b"[1] == '/' && !IsLineTerminator("a/b"[0]);
    assert HasInnerSlash("a/b");
    assert '.' !in "a/b" by {
      forall c | c in "a/b" ensures c != '.' { }
    }
    assert Extension("a/b") == "a/b";
    assert Lookup(routes.blockMimes, Extension("a/b")).None?;
    assert "a/b" + "index.html" == "a/bindex.html";
  }

  /** `"docs"` has no slash, so its index file is `"docs/index.html"`. */
  lemma FileDirectoryIndex(routes: Routes, env: Env)
    requires Lookup(routes.blockMimes, "docs").None?
    ensures FileOutcome(routes, env, "docs") == [SendFile("docs/index.html")]
  {
    assert !HasInnerSlash("docs") by {
      forall i | 1 <= i < |"docs"| ensures "docs"[i] != '/' { }
    }
    assert '.' !in "docs" by {
      forall c | c in "docs" ensures c != '.' { }
    }
    assert Extension("docs") == "docs";
    assert Lookup(routes.blockMimes, Extension("docs")).None?;
    assert "docs" + "/index.html" == "docs/index.html";
  }

  /** The handlers of the matching hits from `i` on, in order: the reference for the POST scan. */
  function HitHandlers(hits: seq<PostHit>, i: nat): seq<Handler>
    requires i <= |hits|
    decreases |hits| - i
  {
    if i == |hits| then []
    else (if hits[i].Hit? then [hits[i].handler] else []) + HitHandlers(hits, i + 1)
  }

  predicate NoneThrows(hits: seq<PostHit>, env: Env)
  {
    forall k :: 0 <= k < |hits| && hits[k].Hit? ==> hits[k].handler !in env.throwing
  }

  /** POST does not stop on success: with no throw, every matching handler runs, in table order. */
  lemma {:induction false} PostCallsEveryMatch(hits: seq<PostHit>, env: Env, failure: seq<Effect>, data: Table<string>, i: nat)
    requires i <= |hits| && NoneThrows(hits, env)
    ensures Invoked(PostRun(hits, env, failure, data, i)) == HitHandlers(hits, i)
    decreases |hits| - i
  {
    if i < |hits| {
      PostCallsEveryMatch(hits, env, failure, data, i + 1);
      match hits[i]
      case Miss =>
      case Hit(h, params) =>
        var call := [HtmlHead, CallPost(h, params, data)];
        InvokedAppend(call, PostRun(hits, env, failure, data, i + 1));
        assert call[1..][1..] == [];
    }
  }

  /** With no matching key, POST emits nothing at all. */
  lemma {:induction false} PostNoMatch(hits: seq<PostHit>, env: Env, failure: seq<Effect>, data: Table<string>, i: nat)
    requires i <= |hits| && forall k :: i <= k < |hits| ==> hits[k].Miss?
    ensures PostRun(hits, env, failure, data, i) == []
    decreases |hits| - i
  {
    if i < |hits| {
      PostNoMatch(hits, env, failure, data, i + 1);
    }
  }

  /** A throwing handler at `j` ends the scan: whatever follows `j` has no effect. */
  lemma {:induction false} PostStopsAtThrow(hits: seq<PostHit>, hits': seq<PostHit>, env: Env, failure: seq<Effect>, data: Table<string>, i: nat, j: nat)
    requires i <= j < |hits| && j < |hits'| && hits[..j + 1] == hits'[..j + 1]
    requires hits[j].Hit? && hits[j].handler in env.throwing
    ensures PostRun(hits, env, failure, data, i) == PostRun(hits', env, failure, data, i)
    decreases j - i
  {
    assert hits[i] == hits[..j + 1][i] == hits'[..j + 1][i] == hits'[i];
    if i < j {
      PostStopsAtThrow(hits, hits', env, failure, data, i + 1, j);
    }
  }

  /** A throwing handler at `j`: the scan ends with the failure answer. */
  lemma {:induction false} PostEndsWithFailure(hits: seq<PostHit>, env: Env, failure: seq<Effect>, data: Table<string>, i: nat, j: nat)
    requires i <= j < |hits| && hits[j].Hit? && hits[j].handler in env.throwing
    ensures |failure| <= |PostRun(hits, env, failure, data, i)|
    ensures PostRun(hits, env, failure, data, i)[|PostRun(hits, env, failure, data, i)| - |failure|..] == failure
    decreases j - i
  {
    var out := PostRun(hits, env, failure, data, i);
    if i < j {
      PostEndsWithFailure(hits, env, failure, data, i + 1, j);
      var rest := PostRun(hits, env, failure, data, i + 1);
      match hits[i]
      case Miss =>
      case Hit(h, params) =>
        if h !in env.throwing {
          var call := [HtmlHead, CallPost(h, params, data)];
          assert out == call + rest;
          assert out[|out| - |failure|..] == rest[|rest| - |failure|..];
        }
    }
  }

  /** The failure answer: the `post` error handler if registered, else the 404 page. */
  lemma PostFailureAnswer(routes: Routes, env: Env)
    ensures Lookup(routes.erorrHandlers, "post").None? ==> PostFailure(routes, env) == [Send404]
    ensures Lookup(routes.erorrHandlers, "post").Some? ==>
      PostFailure(routes, env)[0] == CallError(Lookup(routes.erorrHandlers, "post").value)
  {
  }

  /** The hits are the POST keys that match, in table order: a hit's handler is its entry's value. */
  lemma PostHitsMatch(routes: Routes, path: string, k: nat)
    requires PlainTable(routes.postHandlers, DottedNames) && k < |routes.postHandlers|
    ensures PostHits(routes, path)[k].Hit? <==> Captures(routes.postHandlers[k].key, DottedNames, path).Some?
    ensures PostHits(routes, path)[k].Hit? ==> PostHits(routes, path)[k].handler == routes.postHandlers[k].value
  {
  }
}
