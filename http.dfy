/**
 * The request side of lib/http.js: the server object `createHttpServer` builds
 * with its five empty tables, the path and method selection of the request
 * callback, the form data a POST request carries, and the `req.type` and
 * `req.header` helpers.  URL parsing and form parsing happen outside the model:
 * a request arrives with its pathname, query and headers already split, and a
 * POST form with its fields and the temporary paths of its uploaded files.
 */
module Http {

  import opened Options
  import opened Js
  import opened Tables
  import opened Router
  import opened Pattern

  /** An incoming request; header names are lower-case, as Node delivers them. */
  datatype Request = Request(
    verb: string,          // req.method
    pathname: string,
    query: Table<string>,
    headers: map<string, string>)

  /** A parsed form: the fields, and for each uploaded file its temporary path (`""` when it has none). */
  datatype Form = Form(fields: Table<string>, files: Table<string>)

  /** `url.parse(req.url).pathname.substring(1)`: the pathname without its first character. */
  function RoutedPath(pathname: string): (path: string)
    ensures pathname == [] ==> path == []
    ensures pathname != [] ==> pathname == [pathname[0]] + path
  {
    if pathname == [] then [] else pathname[1..]
  }

  // ---------------------------------------------------------------------------
  // req.data

  /** The form data from upload `i` on: each file with a path has its contents read into the fields. */
  function FormFrom(data: Table<string>, files: Table<string>, disk: map<string, string>, i: nat): Option<Table<string>>
    requires i <= |files|
    decreases |files| - i
  {
    if i == |files| then Some(data)
    else
      var f := files[i];
      if f.value == "" then FormFrom(data, files, disk, i + 1)
      else if f.value !in disk then None
      else FormFrom(Put(data, f.key, disk[f.value]), files, disk, i + 1)
  }

  /** `req.data`: `None` when some upload cannot be read, which throws out of the form callback. */
  function FormData(form: Form, disk: map<string, string>): Option<Table<string>>
  {
    FormFrom(form.fields, form.files, disk, 0)
  }

  method ReadForm(form: Form, disk: map<string, string>) returns (data: Option<Table<string>>)
    ensures data == FormData(form, disk)
  {
    var d := form.fields;
    var i := 0;
    while i < |form.files|
      invariant 0 <= i <= |form.files|
      invariant FormFrom(d, form.files, disk, i) == FormData(form, disk)
    {
      var f := form.files[i];
      if f.value != "" {
        if f.value !in disk {
          return None;
        }
        d := Put(d, f.key, disk[f.value]);
      }
      i := i + 1;
    }
    data := Some(d);
  }

  /** Every upload that has a path can be read. */
  predicate Readable(files: Table<string>, disk: map<string, string>)
  {
    forall i :: 0 <= i < |files| && files[i].value != "" ==> files[i].value in disk
  }

  /** The uploads that have a path, each with the text of its file. */
  function Uploaded(files: Table<string>, disk: map<string, string>): Table<string>
    requires Readable(files, disk)
    decreases |files|
  {
    if files == [] then []
    else
      var rest := Uploaded(files[1..], disk);
      if files[0].value == "" then rest else [Entry(files[0].key, disk[files[0].value])] + rest
  }

  /** With every upload readable, `req.data` is the fields with the uploads' contents merged in, in order. */
  lemma {:induction false} FormFromMerges(data: Table<string>, files: Table<string>, disk: map<string, string>, i: nat)
    requires i <= |files| && Readable(files, disk)
    ensures Readable(files[i..], disk)
    ensures FormFrom(data, files, disk, i) == Some(Merge(data, Uploaded(files[i..], disk)))
    decreases |files| - i
  {
    var tail := files[i..];
    if i == |files| {
      assert tail == [];
    } else {
      assert tail[1..] == files[i + 1..];
      if files[i].value == "" {
        FormFromMerges(data, files, disk, i + 1);
      } else {
        FormFromMerges(Put(data, files[i].key, disk[files[i].value]), files, disk, i + 1);
        MergeCons(data, Entry(files[i].key, disk[files[i].value]), Uploaded(files[i + 1..], disk));
      }
    }
  }

  /** An upload with a path that cannot be read makes the whole POST fail. */
  lemma {:induction false} FormFromFails(data: Table<string>, files: Table<string>, disk: map<string, string>, i: nat, j: nat)
    requires i <= j < |files| && files[j].value != "" && files[j].value !in disk
    ensures FormFrom(data, files, disk, i).None?
    decreases j - i
  {
    if i < j {
      var f := files[i];
      if f.value == "" || f.value !in disk {
        FormFromFails(data, files, disk, i + 1, j);
      } else {
        FormFromFails(Put(data, f.key, disk[f.value]), files, disk, i + 1, j);
      }
    }
  }

  lemma {:induction false} UploadedKeys(files: Table<string>, disk: map<string, string>, k: string)
    requires Readable(files, disk)
    ensures k in Keys(Uploaded(files, disk)) <==> exists i :: 0 <= i < |files| && files[i].key == k && files[i].value != ""
    decreases |files|
  {
    if files != [] {
      assert Readable(files[1..], disk);
      UploadedKeys(files[1..], disk, k);
      var rest := Uploaded(files[1..], disk);
      if files[0].value != "" {
        KeysCons(Entry(files[0].key, disk[files[0].value]), rest);
      }
      if exists i :: 0 <= i < |files| && files[i].key == k && files[i].value != "" {
        var i :| 0 <= i < |files| && files[i].key == k && files[i].value != "";
        if i > 0 {
          assert files[1..][i - 1] == files[i];
        }
      }
      if exists i :: 0 <= i < |files[1..]| && files[1..][i].key == k && files[1..][i].value != "" {
        var i :| 0 <= i < |files[1..]| && files[1..][i].key == k && files[1..][i].value != "";
        assert files[i + 1] == files[1..][i];
      }
    }
  }

  lemma {:induction false} UploadedDistinct(files: Table<string>, disk: map<string, string>)
    requires Readable(files, disk) && Distinct(files)
    ensures Distinct(Uploaded(files, disk))
    decreases |files|
  {
    if files != [] {
      var tail := files[1..];
      assert Readable(tail, disk) && Distinct(tail);
      UploadedDistinct(tail, disk);
      var rest := Uploaded(tail, disk);
      if files[0].value != "" {
        var e := Entry(files[0].key, disk[files[0].value]);
        assert e.key !in Keys(rest) by {
          UploadedKeys(tail, disk, e.key);
        }
        var u := [e] + rest;
        forall i, j | 0 <= i < j < |u| ensures u[i].key != u[j].key {
          if i == 0 {
            assert u[j] == rest[j - 1] && Keys(rest)[j - 1] == rest[j - 1].key;
          } else {
            assert u[i] == rest[i - 1] && u[j] == rest[j - 1];
          }
        }
      }
    }
  }

  lemma {:induction false} UploadedLookup(files: Table<string>, disk: map<string, string>, i: nat)
    requires Readable(files, disk) && Distinct(files)
    requires i < |files| && files[i].value != ""
    ensures Lookup(Uploaded(files, disk), files[i].key) == Some(disk[files[i].value])
    decreases |files|
  {
    var tail := files[1..];
    assert Readable(tail, disk) && Distinct(tail);
    if i > 0 {
      assert tail[i - 1] == files[i];
      UploadedLookup(tail, disk, i - 1);
    }
  }

  /** `req.data[key]` is the text of an uploaded file that has a path, whatever field held that key. */
  lemma FormDataHoldsUpload(form: Form, disk: map<string, string>, i: nat)
    requires Distinct(form.files) && Readable(form.files, disk)
    requires i < |form.files| && form.files[i].value != ""
    ensures FormData(form, disk).Some?
    ensures Lookup(FormData(form, disk).value, form.files[i].key) == Some(disk[form.files[i].value])
  {
    var files := form.files;
    assert files[0..] == files;
    FormFromMerges(form.fields, files, disk, 0);
    UploadedDistinct(files, disk);
    UploadedKeys(files, disk, files[i].key);
    UploadedLookup(files, disk, i);
    MergeLookup(form.fields, Uploaded(files, disk), files[i].key);
  }

  /** A field no upload with a path overrides keeps its value in `req.data`. */
  lemma FormDataKeepsField(form: Form, disk: map<string, string>, k: string)
    requires Distinct(form.files) && Readable(form.files, disk)
    requires forall i :: 0 <= i < |form.files| && form.files[i].key == k ==> form.files[i].value == ""
    ensures FormData(form, disk).Some?
    ensures Lookup(FormData(form, disk).value, k) == Lookup(form.fields, k)
  {
    var files := form.files;
    assert files[0..] == files;
    FormFromMerges(form.fields, files, disk, 0);
    UploadedDistinct(files, disk);
    UploadedKeys(files, disk, k);
    MergeLookup(form.fields, Uploaded(files, disk), k);
  }

  /** An upload with a path that cannot be read: the POST never reaches the router. */
  lemma FormDataFails(form: Form, disk: map<string, string>, j: nat)
    requires j < |form.files| && form.files[j].value != "" && form.files[j].value !in disk
    ensures FormData(form, disk).None?
  {
    FormFromFails(form.fields, form.files, disk, 0, j);
  }

  // ---------------------------------------------------------------------------
  // req.header and req.type

  /** `req.header(name)`: the header's value when it is present and non-empty, else `undefined`. */
  function RequestHeader(headers: map<string, string>, name: string): (r: Option<string>)
    ensures r.Some? <==> name in headers && headers[name] != ""
    ensures r.Some? ==> r.value == headers[name]
  {
    if name in headers && headers[name] != "" then Some(headers[name]) else None
  }

  /** What `req.type(t)` returns: `undefined`, a boolean, or a thrown TypeError. */
  datatype TypeAnswer = Undefined | Answer(matches: bool) | TypeError

  /** The two wildcard tests, on `type.split('/')` against `contentType.split('/')`. */
  predicate WildcardMatches(ty: string, ct: string)
  {
    || (Before(ty, '/') == "*" && SecondPiece(ty, '/') == SecondPiece(ct, '/'))
    || (SecondPiece(ty, '/') == Some("*") && Before(ty, '/') == Before(ct, '/'))
  }

  /**
   * `req.type(t)`.  Without a Content-Type the answer is `undefined`; a name without
   * `/` is first replaced by its MIME table entry (a missing one makes the `'*'`
   * search throw); a type with `*` succeeds only by the wildcard tests, because the
   * final search then compares two arrays; any other type matches as a substring.
   */
  function RequestType(headers: map<string, string>, mimes: map<string, string>, t: string): (r: TypeAnswer)
    ensures r == Undefined <==> RequestHeader(headers, "content-type").None?
    ensures r == TypeError <==> RequestHeader(headers, "content-type").Some? && '/' !in t && t !in mimes
  {
    match RequestHeader(headers, "content-type")
    case None => Undefined
    case Some(ct) =>
      if '/' !in t && t !in mimes then TypeError
      else
        var ty := if '/' in t then t else mimes[t];
        if '*' in ty then Answer(WildcardMatches(ty, ct))
        else Answer(Contains(ct, ty))
  }

  /** A name without `/` is answered as its MIME type would be. */
  lemma TypeLooksUpName(headers: map<string, string>, mimes: map<string, string>, t: string)
    requires RequestHeader(headers, "content-type").Some?
    requires '/' !in t && t in mimes && '/' in mimes[t]
    ensures RequestType(headers, mimes, t) == RequestType(headers, mimes, mimes[t])
  {
  }

  /** A concrete type matches exactly when it occurs in the Content-Type, parameters included. */
  lemma TypeConcrete(headers: map<string, string>, mimes: map<string, string>, t: string)
    requires RequestHeader(headers, "content-type").Some?
    requires '/' in t && '*' !in t
    ensures RequestType(headers, mimes, t).Answer?
    ensures RequestType(headers, mimes, t).matches <==>
      exists j :: 0 <= j <= |headers["content-type"]| && OccursAt(headers["content-type"], t, j)
  {
    ContainsIff(headers["content-type"], t);
  }

  // `*/sub` matches exactly when `sub` is the Content-Type's piece after its first `/`.
  lemma {:induction false} TypeAnySubtype(headers: map<string, string>, mimes: map<string, string>, sub: string)
    requires RequestHeader(headers, "content-type").Some?
    requires '/' !in sub && sub != "*"
    ensures RequestType(headers, mimes, "*/" + sub) == Answer(SecondPiece(headers["content-type"], '/') == Some(sub))
  {
    var ty := "*/" + sub;
    assert ty == "*" + ['/'] + sub;
    PiecesOf("*", '/', sub);
    assert '*' in ty by {
      assert ty[0] == '*';
    }
    assert '/' in ty by {
      assert ty[1] == '/';
    }
  }

  // `main/*` matches exactly when `main` is the Content-Type's text before its first `/`.
  lemma {:induction false} TypeMainAny(headers: map<string, string>, mimes: map<string, string>, main: string)
    requires RequestHeader(headers, "content-type").Some?
    requires '/' !in main && '*' !in main
    ensures RequestType(headers, mimes, main + "/*") == Answer(Before(headers["content-type"], '/') == main)
  {
    var ty := main + "/*";
    assert ty == main + ['/'] + "*";
    PiecesOf(main, '/', "*");
    assert Before("*", '/') == "*";
    assert '*' in ty by {
      assert ty[|main| + 1] == '*';
    }
    assert '/' in ty by {
      assert ty[|main|] == '/';
    }
  }

  // `*/*` does not match an ordinary type, one with no `*` piece of its own.
  lemma {:induction false} TypeAnyAnyOrdinary(headers: map<string, string>, mimes: map<string, string>)
    requires RequestHeader(headers, "content-type").Some?
    requires Before(headers["content-type"], '/') != "*"
    requires SecondPiece(headers["content-type"], '/') != Some("*")
    ensures RequestType(headers, mimes, "*/*") == Answer(false)
  {
    var ty := "*/*";
    assert ty == "*" + ['/'] + "*";
    PiecesOf("*", '/', "*");
    assert Before("*", '/') == "*";
    assert '*' in ty && '/' in ty by {
      assert ty[0] == '*' && ty[1] == '/';
    }
  }

  // ---------------------------------------------------------------------------
  // The request callback

  /** `req.method.toLowerCase() == 'post'`. */
  predicate IsPost(verb: string)
  {
    LowerAscii(verb) == "post"
  }

  /** The keys of the tables a request with method `verb` reads are all covered by the model. */
  predicate Routable(routes: Routes, verb: string)
  {
    && (IsPost(verb) ==> PlainTable(routes.postHandlers, DottedNames))
    && (verb == "GET" ==> GetRoutes(routes))
  }

  /**
   * Everything one request does: a POST-like method parses the form and then runs
   * the POST scan, the method `GET` runs the GET dispatch, and nothing else is routed.
   */
  function RequestOutcome(routes: Routes, env: Env, req: Request, form: Form): seq<Effect>
    requires Routable(routes, req.verb)
  {
    var path := RoutedPath(req.pathname);
    (if IsPost(req.verb) then
       match FormData(form, env.files)
       case None => [Uncaught]
       case Some(data) => PostOutcome(routes, env, path, data)
     else [])
    + (if req.verb == "GET" then GetOutcome(routes, env, path, req.query) else [])
  }

  /** Only `GET`, spelled exactly so, reaches the GET dispatch; any casing of `post` reaches the POST scan. */
  lemma MethodSelection(routes: Routes, env: Env, req: Request, form: Form)
    requires Routable(routes, req.verb)
    ensures req.verb == "GET" ==> RequestOutcome(routes, env, req, form) == GetOutcome(routes, env, RoutedPath(req.pathname), req.query)
    ensures IsPost(req.verb) && FormData(form, env.files).Some? ==>
      RequestOutcome(routes, env, req, form) == PostOutcome(routes, env, RoutedPath(req.pathname), FormData(form, env.files).value)
    ensures !IsPost(req.verb) && req.verb != "GET" ==> RequestOutcome(routes, env, req, form) == []
  {
    if req.verb == "GET" {
      assert LowerAscii(req.verb)[0] == 'g';
      assert !IsPost(req.verb);
    }
  }

  /** `get` in lower case is not routed at all, while `POST` and `Post` are. */
  lemma MethodSpelling()
    ensures !IsPost("get") && "get" != "GET"
    ensures IsPost("POST") && IsPost("Post")
  {
    assert LowerAscii("POST") == "post" by {
      assert LowerAscii("POST")[0] == 'p' && LowerAscii("POST")[1] == 'o';
      assert LowerAscii("POST")[2] == 's' && LowerAscii("POST")[3] == 't';
    }
    assert LowerAscii("Post") == "post" by {
      assert LowerAscii("Post")[0] == 'p' && LowerAscii("Post")[1] == 'o';
      assert LowerAscii("Post")[2] == 's' && LowerAscii("Post")[3] == 't';
    }
    assert LowerAscii("get")[0] == 'g';
  }

  /** A server object: the five tables `createHttpServer` attaches, and the request callback. */
  class Server {
    var urlHandlers: Table<string>
    var getHandlers: Table<Handler>
    var postHandlers: Table<Handler>
    var erorrHandlers: Table<Handler>
    var blockMimes: Table<Handler>

    /** Like every JavaScript object, each table holds a property at most once. */
    predicate Valid()
      reads this
    {
      && Distinct(urlHandlers) && Distinct(getHandlers) && Distinct(postHandlers)
      && Distinct(erorrHandlers) && Distinct(blockMimes)
    }

    /** `createHttpServer()`: every table starts empty. */
    constructor ()
      ensures urlHandlers == [] && getHandlers == [] && postHandlers == []
      ensures erorrHandlers == [] && blockMimes == []
      ensures Valid()
    {
      urlHandlers := [];
      getHandlers := [];
      postHandlers := [];
      erorrHandlers := [];
      blockMimes := [];
    }

    /** The tables as the router reads them. */
    function Tables(): Routes
      reads this
    {
      Routes(urlHandlers, getHandlers, postHandlers, erorrHandlers, blockMimes)
    }

    /** The request callback: select the path and the method, then dispatch. */
    method Handle(env: Env, req: Request, form: Form) returns (effects: seq<Effect>)
      requires Routable(Tables(), req.verb)
      ensures effects == RequestOutcome(Tables(), env, req, form)
    {
      var path := RoutedPath(req.pathname);
      effects := [];
      if LowerAscii(req.verb) == "post" {
        var data := ReadForm(form, env.files);
        if data.None? {
          effects := [Uncaught];
        } else {
          effects := PostHandler(Tables(), env, path, data.value);
        }
      }
      if req.verb == "GET" {
        var answer := GetHandler(Tables(), env, path, req.query);
        effects := effects + answer;
      }
    }
  }

  /** A fresh server answers every GET with the static fallback. */
  lemma FreshServerServesFiles(env: Env, path: string, query: Table<string>)
    requires path != "" && path != "favicon.ico"
    ensures GetOutcome(Routes([], [], [], [], []), env, path, query) == FileOutcome(Routes([], [], [], [], []), env, path)
  {
  }
}
