/**
 * The route-pattern language of lib/router.js.
 *
 * A route key such as `/users/:id` is compiled in three steps that the router
 * repeats inline for GET, URL rules and POST:
 *   1. every `/:name` is rewritten to the regular-expression text `\/(.*)`;
 *   2. if the result contains a `/` at all, its first two characters are dropped;
 *   3. the text becomes a case-insensitive, unanchored regular expression.
 * This module models step 1 and 2 as string rewrites (`Rewrite`, `Compile`), the
 * scan that collects capture names (`Names`), the tokenising of the compiled text
 * (`Tokens`, for keys without regular-expression metacharacters) and the matcher
 * JavaScript runs on it: the leftmost start position, and at that position the
 * backtracking order in which an earlier `(.*)` takes as much as it can.
 */
module Pattern {

  import opened Options

  /**
   * The characters a capture name may hold.  The GET and URL-rule compilers use
   * `[a-zA-Z0-9-_$]`; the POST compiler and the name collector also admit `.`.
   */
  datatype NameClass = RouteNames | DottedNames

  predicate IsNameChar(c: char, cls: NameClass)
  {
    || ('a' <= c <= 'z') || ('A' <= c <= 'Z') || ('0' <= c <= '9')
    || c == '-' || c == '_' || c == '$'
    || (cls == DottedNames && c == '.')
  }

  /** Length of the longest prefix of `s` made of name characters (the greedy `*`). */
  function NameLen(s: string, cls: NameClass): (n: nat)
    ensures n <= |s|
  {
    if s == [] || !IsNameChar(s[0], cls) then 0 else 1 + NameLen(s[1..], cls)
  }

  /** The prefix `NameLen` measures is made of name characters and stops at the first other one. */
  lemma {:induction false} NameLenChars(s: string, cls: NameClass)
    ensures forall i :: 0 <= i < NameLen(s, cls) ==> IsNameChar(s[i], cls)
    ensures NameLen(s, cls) < |s| ==> !IsNameChar(s[NameLen(s, cls)], cls)
    decreases |s|
  {
    if s != [] && IsNameChar(s[0], cls) {
      NameLenChars(s[1..], cls);
    }
  }

  /** `s` starts with the capture marker `/:`. */
  predicate StartsCapture(s: string)
  {
    |s| >= 2 && s[0] == '/' && s[1] == ':'
  }

  /** The regular-expression text every capture segment is rewritten to. */
  const Group: string := "\\/(.*)"

  /** `key.replace(/\/:([name]*)/g, '\\/(.*)')`. */
  function Rewrite(key: string, cls: NameClass): string
    decreases |key|
  {
    if StartsCapture(key) then Group + Rewrite(key[2 + NameLen(key[2..], cls)..], cls)
    else if key == [] then []
    else [key[0]] + Rewrite(key[1..], cls)
  }

  /** The rewrite, then `if (/\//.test(_key)) _key = _key.substring(2)`. */
  function Compile(key: string, cls: NameClass): string
  {
    var r := Rewrite(key, cls);
    if '/' in r then (if |r| >= 2 then r[2..] else []) else r
  }

  /** The capture names of `key`, left to right. */
  function Names(key: string, cls: NameClass): seq<string>
    decreases |key|
  {
    if StartsCapture(key) then
      var n := NameLen(key[2..], cls);
      [key[2..2 + n]] + Names(key[2 + n..], cls)
    else if key == [] then []
    else Names(key[1..], cls)
  }

  /** The position of the leftmost `/:` in `s` (what `/\/:(...)/i.test(s)` finds). */
  function FindCapture(s: string): (r: Option<nat>)
    ensures r.Some? ==> r.value + 2 <= |s| && StartsCapture(s[r.value..])
    ensures r.Some? ==> forall j :: 0 <= j < r.value ==> !StartsCapture(s[j..])
    ensures r.None? ==> forall j :: 0 <= j <= |s| ==> !StartsCapture(s[j..])
    decreases |s|
  {
    if |s| < 2 then None
    else if StartsCapture(s) then Some(0)
    else match FindCapture(s[1..])
      case None =>
        assert forall j :: 1 <= j <= |s| ==> s[j..] == s[1..][j - 1..];
        None
      case Some(p) =>
        assert forall j :: 1 <= j <= p + 1 ==> s[j..] == s[1..][j - 1..];
        Some(p + 1)
  }

  /** The name captured at a marker found at `p` (`RegExp.$1` after the collector's test). */
  function NameAtMarker(s: string, p: nat, cls: NameClass): string
    requires p + 2 <= |s|
  {
    s[p + 2..p + 2 + NameLen(s[p + 2..], cls)]
  }

  /** `s.replace(/\/:([name]*)/i, '\\/(.*)')`: only the marker at `p` is rewritten. */
  function ReplaceMarker(s: string, p: nat, cls: NameClass): string
    requires p + 2 <= |s|
  {
    s[..p] + Group + s[p + 2 + NameLen(s[p + 2..], cls)..]
  }

  lemma NamesSkip(c: char, t: string, cls: NameClass)
    requires !StartsCapture([c] + t)
    ensures Names([c] + t, cls) == Names(t, cls)
  {
    assert ([c] + t)[1..] == t;
  }

  /** `\/(.*)` spelled out character by character. */
  lemma GroupChars(t: string)
    ensures Group + t == "\\" + ("/" + ("(" + ("." + ("*" + (")" + t)))))
  {
    assert |Group| == 6;
    forall k | 0 <= k < 6 + |t|
      ensures (Group + t)[k] == ("\\" + ("/" + ("(" + ("." + ("*" + (")" + t))))))[k]
    {
    }
  }

  /** The text `\/(.*)` holds no capture marker. */
  lemma NamesAfterGroup(t: string, cls: NameClass)
    ensures Names(Group + t, cls) == Names(t, cls)
  {
    var t5 := ")" + t;
    var t4 := "*" + t5;
    var t3 := "." + t4;
    var t2 := "(" + t3;
    var t1 := "/" + t2;
    GroupChars(t);
    NamesSkip('\\', t1, cls);
    NamesSkip('/', t2, cls);
    NamesSkip('(', t3, cls);
    NamesSkip('.', t4, cls);
    NamesSkip('*', t5, cls);
    NamesSkip(')', t, cls);
  }

  /**
   * One step of the collector: the leftmost marker's name is the first name, and
   * rewriting that marker leaves exactly the remaining names.
   */
  lemma {:induction false} CollectStep(s: string, cls: NameClass)
    ensures FindCapture(s).None? ==> Names(s, cls) == []
    ensures FindCapture(s).Some? ==>
      var p := FindCapture(s).value;
      Names(s, cls) == [NameAtMarker(s, p, cls)] + Names(ReplaceMarker(s, p, cls), cls)
    decreases |s|
  {
    if |s| < 2 {
      if |s| == 1 {
        assert s[1..] == [];
      }
    } else if StartsCapture(s) {
      CollectHere(s, cls);
    } else {
      CollectStep(s[1..], cls);
      if FindCapture(s[1..]).Some? {
        CollectLater(s, FindCapture(s[1..]).value, cls);
      }
    }
  }

  lemma CollectHere(s: string, cls: NameClass)
    requires StartsCapture(s)
    ensures Names(s, cls) == [NameAtMarker(s, 0, cls)] + Names(ReplaceMarker(s, 0, cls), cls)
  {
    var n := NameLen(s[2..], cls);
    assert ReplaceMarker(s, 0, cls) == Group + s[2 + n..];
    NamesAfterGroup(s[2 + n..], cls);
  }

  lemma CollectLater(s: string, q: nat, cls: NameClass)
    requires |s| >= 2 && !StartsCapture(s) && q + 2 <= |s[1..]|
    requires Names(s[1..], cls) == [NameAtMarker(s[1..], q, cls)] + Names(ReplaceMarker(s[1..], q, cls), cls)
    ensures Names(s, cls) == [NameAtMarker(s, q + 1, cls)] + Names(ReplaceMarker(s, q + 1, cls), cls)
  {
    NameShift(s, q, cls);
    ReplaceShift(s, q, cls);
    ReplaceHead(s[1..], q, cls);
    NamesSkip(s[0], ReplaceMarker(s[1..], q, cls), cls);
  }

  /** A marker one character further into `s` is the same marker of `s[1..]` ... */
  lemma NameShift(s: string, q: nat, cls: NameClass)
    requires |s| >= 1 && q + 2 <= |s[1..]|
    ensures NameAtMarker(s, q + 1, cls) == NameAtMarker(s[1..], q, cls)
  {
    assert s[1..][q + 2..] == s[q + 3..];
    var n := NameLen(s[q + 3..], cls);
    assert s[1..][q + 2..q + 2 + n] == s[q + 3..q + 3 + n];
  }

  /** ... and rewriting it keeps the first character in front. */
  lemma ReplaceShift(s: string, q: nat, cls: NameClass)
    requires |s| >= 1 && q + 2 <= |s[1..]|
    ensures ReplaceMarker(s, q + 1, cls) == [s[0]] + ReplaceMarker(s[1..], q, cls)
  {
    var t := s[1..];
    assert t[q + 2..] == s[q + 3..];
    var n := NameLen(s[q + 3..], cls);
    assert t[q + 2 + n..] == s[q + 3 + n..];
    assert [s[0]] + t[..q] == s[..q + 1];
  }

  /** The rewritten text starts with the group when the marker is at the front. */
  lemma ReplaceHead(t: string, q: nat, cls: NameClass)
    requires q + 2 <= |t|
    ensures ReplaceMarker(t, q, cls) != []
    ensures ReplaceMarker(t, q, cls)[0] == if q == 0 then '\\' else t[0]
  {
    var n := NameLen(t[q + 2..], cls);
    assert ReplaceMarker(t, q, cls) == t[..q] + Group + t[q + 2 + n..];
  }

  /** Text without a slash holds no capture marker and is kept verbatim by the rewrite. */
  lemma {:induction false} RewriteAppendLiteral(w: string, t: string, cls: NameClass)
    requires '/' !in w
    ensures Rewrite(w + t, cls) == w + Rewrite(t, cls)
    ensures Names(w + t, cls) == Names(t, cls)
    decreases |w|
  {
    if w != [] {
      assert (w + t)[1..] == w[1..] + t;
      assert w[0] in w;
      assert forall c :: c in w[1..] ==> c in w;
      RewriteAppendLiteral(w[1..], t, cls);
      assert w + t == [w[0]] + (w[1..] + t);
    } else {
      assert w + t == t;
    }
  }

  /**
   * The cut after the rewrite drops the leading slash together with the first
   * character of the path: `/users/:id` compiles to the pattern `sers\/(.*)`.
   */
  lemma CompileDropsFirstChar(c: char, rest: string, cls: NameClass)
    requires c != ':' && c != '/'
    ensures Compile(['/', c] + rest, cls) == Rewrite(rest, cls)
  {
    var key := ['/', c] + rest;
    assert key[1..] == [c] + rest && ([c] + rest)[1..] == rest;
    RewriteAtPlain(key, cls);
    RewriteAtPlain(key[1..], cls);
    assert Rewrite(key, cls)[0] == '/';
    assert Rewrite(key, cls)[2..] == Rewrite(rest, cls);
  }

  /** The regular-expression metacharacters: a key holding none of them is plain text. */
  predicate IsMeta(c: char)
  {
    c in "\\^$.|?*+()[]{}"
  }

  /**
   * A key the model covers under name class `cls`: outside its `/:name` segments
   * (which the rewrite removes, whatever they hold) only literal characters and `.`.
   * The other metacharacters would need the full regular-expression language.
   */
  predicate PlainKey(key: string, cls: NameClass)
    decreases |key|
  {
    if StartsCapture(key) then PlainKey(key[2 + NameLen(key[2..], cls)..], cls)
    else key == [] || ((key[0] == '.' || !IsMeta(key[0])) && PlainKey(key[1..], cls))
  }

  /** The number of capture markers `/:` in `s`, wherever they are. */
  function Markers(s: string): nat
    decreases |s|
  {
    if |s| < 2 then 0 else (if StartsCapture(s) then 1 else 0) + Markers(s[1..])
  }

  /** Skipping characters that are not `/` passes no marker. */
  lemma {:induction false} MarkersSkip(s: string, n: nat)
    requires n <= |s| && forall i :: 0 <= i < n ==> s[i] != '/'
    ensures Markers(s) == Markers(s[n..])
    decreases n
  {
    if n > 0 {
      assert s[1..][n - 1..] == s[n..];
      MarkersSkip(s[1..], n - 1);
    }
  }

  /** Both name classes find one name per marker. */
  lemma {:induction false} NamesCountMarkers(key: string, cls: NameClass)
    ensures |Names(key, cls)| == Markers(key)
    decreases |key|
  {
    if StartsCapture(key) {
      var n := NameLen(key[2..], cls);
      assert key[1..][1..] == key[2..];
      assert key[2..][n..] == key[2 + n..];
      NameLenChars(key[2..], cls);
      MarkersSkip(key[2..], n);
      NamesCountMarkers(key[2 + n..], cls);
    } else if key != [] {
      NamesCountMarkers(key[1..], cls);
    }
  }

  /**
   * The GET compiler (names without `.`) and the collector (names with `.`) see the
   * same number of segments, though not always the same names.
   */
  lemma ClassesCountAlike(key: string)
    ensures |Names(key, RouteNames)| == |Names(key, DottedNames)|
  {
    NamesCountMarkers(key, RouteNames);
    NamesCountMarkers(key, DottedNames);
  }

  /** Without `.` in a key the two name classes rewrite it alike ... */
  lemma {:induction false} PlainClassesAgree(key: string)
    requires '.' !in key
    ensures Rewrite(key, RouteNames) == Rewrite(key, DottedNames)
    decreases |key|
  {
    if StartsCapture(key) {
      NameLenNoDot(key[2..]);
      var n := NameLen(key[2..], RouteNames);
      NoDotSuffix(key, 2 + n);
      PlainClassesAgree(key[2 + n..]);
      RewriteAgreeAtCapture(key);
    } else if key != [] {
      NoDotSuffix(key, 1);
      PlainClassesAgree(key[1..]);
      RewriteAgreeAtPlain(key);
    }
  }

  lemma RewriteAgreeAtCapture(key: string)
    requires StartsCapture(key) && NameLen(key[2..], RouteNames) == NameLen(key[2..], DottedNames)
    requires
      var rest := key[2 + NameLen(key[2..], RouteNames)..];
      Rewrite(rest, RouteNames) == Rewrite(rest, DottedNames)
    ensures Rewrite(key, RouteNames) == Rewrite(key, DottedNames)
  {
    RewriteAtCapture(key, RouteNames);
    RewriteAtCapture(key, DottedNames);
  }

  lemma RewriteAgreeAtPlain(key: string)
    requires key != [] && !StartsCapture(key)
    requires Rewrite(key[1..], RouteNames) == Rewrite(key[1..], DottedNames)
    ensures Rewrite(key, RouteNames) == Rewrite(key, DottedNames)
  {
    RewriteAtPlain(key, RouteNames);
    RewriteAtPlain(key, DottedNames);
  }

  /** ... and collect the same names. */
  lemma {:induction false} PlainNamesAgree(key: string)
    requires '.' !in key
    ensures Names(key, RouteNames) == Names(key, DottedNames)
    decreases |key|
  {
    if StartsCapture(key) {
      NameLenNoDot(key[2..]);
      var n := NameLen(key[2..], RouteNames);
      NoDotSuffix(key, 2 + n);
      PlainNamesAgree(key[2 + n..]);
      NamesAgreeAtCapture(key);
    } else if key != [] {
      NoDotSuffix(key, 1);
      PlainNamesAgree(key[1..]);
      NamesAgreeAtPlain(key);
    }
  }

  lemma NamesAgreeAtCapture(key: string)
    requires StartsCapture(key) && NameLen(key[2..], RouteNames) == NameLen(key[2..], DottedNames)
    requires
      var rest := key[2 + NameLen(key[2..], RouteNames)..];
      Names(rest, RouteNames) == Names(rest, DottedNames)
    ensures Names(key, RouteNames) == Names(key, DottedNames)
  {
  }

  lemma NamesAgreeAtPlain(key: string)
    requires key != [] && !StartsCapture(key)
    requires Names(key[1..], RouteNames) == Names(key[1..], DottedNames)
    ensures Names(key, RouteNames) == Names(key, DottedNames)
  {
  }

  lemma NoDotSuffix(key: string, i: nat)
    requires '.' !in key && i <= |key|
    ensures '.' !in key[i..]
  {
    assert forall c :: c in key[i..] ==> c in key;
  }

  lemma {:induction false} NameLenNoDot(s: string)
    requires '.' !in s
    ensures NameLen(s, RouteNames) == NameLen(s, DottedNames)
    decreases |s|
  {
    if s != [] {
      assert forall c :: c in s[1..] ==> c in s;
      NameLenNoDot(s[1..]);
    }
  }

  /** What the compiled text of a plain key means as a regular expression. */
  datatype Token = Lit(c: char) | Any | Star

  function Cons(t: Token, r: Option<seq<Token>>): Option<seq<Token>>
  {
    match r
    case None => None
    case Some(ts) => Some([t] + ts)
  }

  /**
   * Reads compiled text as a regular expression: `\/` and a bare `/` are a literal
   * slash, `(.*)` is a capture group, `.` any character but a line terminator; any
   * other metacharacter is outside the model.
   */
  function Tokens(re: string): Option<seq<Token>>
    decreases |re|
  {
    if re == [] then Some([])
    else if |re| >= 2 && re[0] == '\\' && re[1] == '/' then Cons(Lit('/'), Tokens(re[2..]))
    else if |re| >= 4 && re[0] == '(' && re[1] == '.' && re[2] == '*' && re[3] == ')' then
      Cons(Star, Tokens(re[4..]))
    else if re[0] == '.' then Cons(Any, Tokens(re[1..]))
    else if IsMeta(re[0]) then None
    else Cons(Lit(re[0]), Tokens(re[1..]))
  }

  function StarCount(ts: seq<Token>): nat
  {
    if ts == [] then 0 else (if ts[0] == Star then 1 else 0) + StarCount(ts[1..])
  }

  lemma StarCountCons(t: Token, ts: seq<Token>)
    ensures StarCount([t] + ts) == (if t == Star then 1 else 0) + StarCount(ts)
  {
    assert ([t] + ts)[1..] == ts;
  }

  lemma TokensGroupTail(r: string)
    ensures Tokens("(.*)" + r) == Cons(Star, Tokens(r))
    ensures Tokens("/(.*)" + r) == Cons(Lit('/'), Cons(Star, Tokens(r)))
    ensures Tokens(Group + r) == Cons(Lit('/'), Cons(Star, Tokens(r)))
  {
    assert ("(.*)" + r)[4..] == r;
    assert ("/(.*)" + r)[1..] == "(.*)" + r;
    assert (Group + r)[2..] == "(.*)" + r;
  }

  lemma TokensPlainChar(c: char, r: string)
    requires c == '.' || !IsMeta(c)
    ensures Tokens([c] + r) == Cons(if c == '.' then Any else Lit(c), Tokens(r))
  {
    assert ([c] + r)[1..] == r;
  }

  /** The rewrite of a plain key tokenises, with one group per capture name. */
  lemma {:induction false} RewriteTokens(key: string, cls: NameClass)
    requires PlainKey(key, cls)
    ensures Tokens(Rewrite(key, cls)).Some?
    ensures StarCount(Tokens(Rewrite(key, cls)).value) == |Names(key, cls)|
    decreases |key|
  {
    if StartsCapture(key) {
      var rest := key[2 + NameLen(key[2..], cls)..];
      RewriteTokens(rest, cls);
      TokensGroupTail(Rewrite(rest, cls));
    } else if key != [] {
      RewriteTokens(key[1..], cls);
      TokensPlainChar(key[0], Rewrite(key[1..], cls));
    }
  }

  /**
   * Compiling a plain key always yields text the model can read, and dropping the
   * first two characters never removes a capture group: the compiled pattern has
   * exactly one group per capture name.
   */
  lemma CompileTokens(key: string, cls: NameClass)
    requires PlainKey(key, cls)
    ensures Tokens(Compile(key, cls)).Some?
    ensures StarCount(Tokens(Compile(key, cls)).value) == |Names(key, cls)|
  {
    RewriteTokens(key, cls);
    if '/' in Rewrite(key, cls) {
      if StartsCapture(key) {
        CutAtCapture(key, cls);
      } else if |key| >= 2 && StartsCapture(key[1..]) {
        CutBeforeCapture(key, cls);
      } else if |key| >= 2 {
        CutTwoPlain(key, cls);
      } else {
        assert |key| == 1 ==> Rewrite(key, cls) == [key[0]] + Rewrite(key[1..], cls);
      }
    }
  }

  lemma RewriteAtCapture(key: string, cls: NameClass)
    requires StartsCapture(key)
    ensures Rewrite(key, cls) == Group + Rewrite(key[2 + NameLen(key[2..], cls)..], cls)
  {
  }

  lemma RewriteAtPlain(key: string, cls: NameClass)
    requires key != [] && !StartsCapture(key)
    ensures Rewrite(key, cls) == [key[0]] + Rewrite(key[1..], cls)
  {
  }

  lemma CutGroup(r: string)
    ensures (Group + r)[2..] == "(.*)" + r
  {
  }

  lemma TokensStarFirst(r: string)
    requires Tokens(r).Some?
    ensures Tokens("(.*)" + r).Some?
    ensures StarCount(Tokens("(.*)" + r).value) == 1 + StarCount(Tokens(r).value)
  {
    TokensGroupTail(r);
    StarCountCons(Star, Tokens(r).value);
  }

  lemma TokensSlashStar(r: string)
    requires Tokens(r).Some?
    ensures Tokens("/(.*)" + r).Some?
    ensures StarCount(Tokens("/(.*)" + r).value) == 1 + StarCount(Tokens(r).value)
  {
    TokensGroupTail(r);
    StarCountCons(Star, Tokens(r).value);
    StarCountCons(Lit('/'), [Star] + Tokens(r).value);
  }

  lemma NamesAtCapture(key: string, cls: NameClass)
    requires StartsCapture(key)
    ensures |Names(key, cls)| == 1 + |Names(key[2 + NameLen(key[2..], cls)..], cls)|
  {
    var n := NameLen(key[2..], cls);
    var rest := Names(key[2 + n..], cls);
    assert Names(key, cls) == [key[2..2 + n]] + rest;
    assert |[key[2..2 + n]] + rest| == 1 + |rest|;
  }

  /** `Group + rest` loses its escaped slash and keeps its group. */
  lemma CutAtCapture(key: string, cls: NameClass)
    requires PlainKey(key, cls) && StartsCapture(key)
    ensures |Rewrite(key, cls)| >= 2
    ensures Tokens(Rewrite(key, cls)[2..]).Some?
    ensures StarCount(Tokens(Rewrite(key, cls)[2..]).value) == |Names(key, cls)|
  {
    var rest := key[2 + NameLen(key[2..], cls)..];
    RewriteTokens(rest, cls);
    var r := Rewrite(rest, cls);
    RewriteAtCapture(key, cls);
    CutGroup(r);
    TokensStarFirst(r);
    NamesAtCapture(key, cls);
  }

  lemma CutBeforeCapture(key: string, cls: NameClass)
    requires PlainKey(key, cls) && |key| >= 2 && !StartsCapture(key) && StartsCapture(key[1..])
    ensures |Rewrite(key, cls)| >= 2
    ensures Tokens(Rewrite(key, cls)[2..]).Some?
    ensures StarCount(Tokens(Rewrite(key, cls)[2..]).value) == |Names(key, cls)|
  {
    var tail := key[1..];
    var rest := tail[2 + NameLen(tail[2..], cls)..];
    RewriteTokens(rest, cls);
    var r := Rewrite(rest, cls);
    RewriteAtPlain(key, cls);
    RewriteAtCapture(tail, cls);
    CutSlashGroup(key[0], r);
    TokensSlashStar(r);
    NamesAtCapture(tail, cls);
    NamesAtPlain(key, cls);
  }

  lemma CutSlashGroup(c: char, r: string)
    ensures ([c] + (Group + r))[2..] == "/(.*)" + r
  {
  }

  lemma NamesAtPlain(key: string, cls: NameClass)
    requires key != [] && !StartsCapture(key)
    ensures Names(key, cls) == Names(key[1..], cls)
  {
  }

  lemma CutTwoPlain(key: string, cls: NameClass)
    requires PlainKey(key, cls) && |key| >= 2 && !StartsCapture(key) && !StartsCapture(key[1..])
    ensures |Rewrite(key, cls)| >= 2
    ensures Names(key, cls) == Names(key[2..], cls)
    ensures Tokens(Rewrite(key, cls)[2..]).Some?
    ensures StarCount(Tokens(Rewrite(key, cls)[2..]).value) == |Names(key, cls)|
  {
    var tail := key[1..];
    assert tail[1..] == key[2..];
    assert PlainKey(tail, cls);
    RewriteTokens(key[2..], cls);
    RewriteAtPlain(key, cls);
    RewriteAtPlain(tail, cls);
    var r := Rewrite(key[2..], cls);
    assert ([key[0]] + ([tail[0]] + r))[2..] == r;
  }

  // ---------------------------------------------------------------------------
  // Matching

  /** ASCII upper-casing: the case folding of the `i` flag on the characters that matter here. */
  function Upper(c: char): char
  {
    if 'a' <= c <= 'z' then (c as int - 32) as char else c
  }

  predicate SameLetter(a: char, b: char)
  {
    Upper(a) == Upper(b)
  }

  /** The characters `.` does not match. */
  predicate IsLineTerminator(c: char)
  {
    c == '\n' || c == '\r' || c == '\U{2028}' || c == '\U{2029}'
  }

  predicate DotsOnly(s: string)
  {
    forall i :: 0 <= i < |s| ==> !IsLineTerminator(s[i])
  }

  /** How far a `.*` can reach from the start of `s`. */
  function DotRun(s: string): (n: nat)
    ensures n <= |s| && DotsOnly(s[..n])
    ensures n < |s| ==> IsLineTerminator(s[n])
  {
    if s == [] || IsLineTerminator(s[0]) then 0
    else
      var n := 1 + DotRun(s[1..]);
      assert forall i :: 1 <= i < n ==> s[..n][i] == s[1..][..n - 1][i - 1];
      n
  }

  /**
   * The reference meaning of a pattern: `caps` is a way to split a prefix of `s`
   * along `ts`, letters compared without case and each group a run without line
   * terminators.
   */
  predicate Fits(ts: seq<Token>, s: string, caps: seq<string>)
    decreases ts
  {
    if ts == [] then caps == []
    else match ts[0]
      case Lit(c) => |s| > 0 && SameLetter(s[0], c) && Fits(ts[1..], s[1..], caps)
      case Any => |s| > 0 && !IsLineTerminator(s[0]) && Fits(ts[1..], s[1..], caps)
      case Star =>
        && |caps| > 0 && |caps[0]| <= |s| && caps[0] == s[..|caps[0]|] && DotsOnly(caps[0])
        && Fits(ts[1..], s[|caps[0]|..], caps[1..])
  }

  /** The backtracking matcher at one start position: the captures of the first split found. */
  function MatchHere(ts: seq<Token>, s: string): Option<seq<string>>
    decreases |ts|, |s| + 1
  {
    if ts == [] then Some([])
    else match ts[0]
      case Lit(c) => if |s| > 0 && SameLetter(s[0], c) then MatchHere(ts[1..], s[1..]) else None
      case Any => if |s| > 0 && !IsLineTerminator(s[0]) then MatchHere(ts[1..], s[1..]) else None
      case Star => Backtrack(ts[1..], s, DotRun(s))
  }

  /** A greedy `(.*)` tries the longest run first, then one character less each time. */
  function Backtrack(rest: seq<Token>, s: string, k: nat): Option<seq<string>>
    requires k <= |s|
    decreases |rest| + 1, k
  {
    match MatchHere(rest, s[k..])
    case Some(cs) => Some([s[..k]] + cs)
    case None => if k == 0 then None else Backtrack(rest, s, k - 1)
  }

  /** `RegExp.prototype.test` without `lastIndex`: the leftmost start position that matches. */
  function Search(ts: seq<Token>, s: string, i: nat): (r: Option<(nat, seq<string>)>)
    requires i <= |s|
    ensures r.Some? ==> i <= r.value.0 <= |s| && MatchHere(ts, s[r.value.0..]) == Some(r.value.1)
    ensures r.Some? ==> forall j :: i <= j < r.value.0 ==> MatchHere(ts, s[j..]).None?
    ensures r.None? ==> forall j :: i <= j <= |s| ==> MatchHere(ts, s[j..]).None?
    decreases |s| - i
  {
    var here := MatchHere(ts, s[i..]);
    if here.Some? then Some((i, here.value))
    else if i == |s| then None
    else
      var r := Search(ts, s, i + 1);
      assert forall j :: i < j <= |s| && (r.None? || j < r.value.0) ==> MatchHere(ts, s[j..]).None?;
      r
  }

  /** The captures of the route's own match on `path`, or `None` when it does not match. */
  function Test(re: string, path: string): Option<seq<string>>
  {
    match Tokens(re)
    case None => None
    case Some(ts) =>
      match Search(ts, path, 0)
      case None => None
      case Some(m) => Some(m.1)
  }

  /** Compile and test a key: what the router does with each key of a table. */
  function Captures(key: string, cls: NameClass, path: string): Option<seq<string>>
    requires PlainKey(key, cls)
  {
    Test(Compile(key, cls), path)
  }

  // ---------------------------------------------------------------------------
  // What the matcher computes

  lemma {:induction false} MatchSound(ts: seq<Token>, s: string)
    ensures MatchHere(ts, s).Some? ==> Fits(ts, s, MatchHere(ts, s).value)
    decreases |ts|, |s| + 1
  {
    if ts != [] {
      match ts[0]
      case Lit(c) =>
        if |s| > 0 && SameLetter(s[0], c) {
          MatchSound(ts[1..], s[1..]);
        }
      case Any =>
        if |s| > 0 && !IsLineTerminator(s[0]) {
          MatchSound(ts[1..], s[1..]);
        }
      case Star =>
        BacktrackSound(ts[1..], s, DotRun(s));
    }
  }

  lemma {:induction false} BacktrackSound(rest: seq<Token>, s: string, k: nat)
    requires k <= DotRun(s)
    ensures Backtrack(rest, s, k).Some? ==> Fits([Star] + rest, s, Backtrack(rest, s, k).value)
    decreases |rest| + 1, k
  {
    var ts := [Star] + rest;
    assert ts[1..] == rest;
    match MatchHere(rest, s[k..])
    case Some(cs) =>
      MatchSound(rest, s[k..]);
      var caps := [s[..k]] + cs;
      assert caps[1..] == cs;
      assert DotsOnly(s[..k]) by {
        assert forall i :: 0 <= i < k ==> s[..k][i] == s[..DotRun(s)][i];
      }
    case None =>
      if k > 0 {
        BacktrackSound(rest, s, k - 1);
      }
  }

  lemma {:induction false} MatchComplete(ts: seq<Token>, s: string, caps: seq<string>)
    requires Fits(ts, s, caps)
    ensures MatchHere(ts, s).Some?
    decreases |ts|, |s| + 1
  {
    if ts != [] {
      match ts[0]
      case Lit(c) =>
        MatchComplete(ts[1..], s[1..], caps);
      case Any =>
        MatchComplete(ts[1..], s[1..], caps);
      case Star =>
        var k := |caps[0]|;
        DotRunCovers(s, k);
        BacktrackComplete(ts[1..], s, DotRun(s), caps);
    }
  }

  /** A run without line terminators at the start of `s` is no longer than `DotRun(s)`. */
  lemma DotRunCovers(s: string, k: nat)
    requires k <= |s| && DotsOnly(s[..k])
    ensures k <= DotRun(s)
  {
    assert forall i :: 0 <= i < k ==> s[..k][i] == s[i];
  }

  lemma {:induction false} BacktrackComplete(rest: seq<Token>, s: string, k: nat, caps: seq<string>)
    requires k <= |s|
    requires |caps| > 0 && |caps[0]| <= k && caps[0] == s[..|caps[0]|]
    requires Fits(rest, s[|caps[0]|..], caps[1..])
    ensures Backtrack(rest, s, k).Some?
    decreases |rest| + 1, k
  {
    if MatchHere(rest, s[k..]).None? {
      if k == |caps[0]| {
        MatchComplete(rest, s[k..], caps[1..]);
      } else {
        BacktrackComplete(rest, s, k - 1, caps);
      }
    }
  }

  /**
   * `a` is preferred to `b` by JavaScript's backtracking order: at the first group
   * where they differ, `a`'s capture is the longer one.
   */
  predicate Prefers(a: seq<string>, b: seq<string>)
    decreases |a|
  {
    || |a| == 0 || |b| == 0
    || |a[0]| > |b[0]|
    || (a[0] == b[0] && Prefers(a[1..], b[1..]))
  }

  /**
   * Greediness: of all splits that fit at this start position, the matcher returns
   * the one in which every earlier group takes as much as it can.
   */
  lemma {:induction false} MatchGreedy(ts: seq<Token>, s: string, caps: seq<string>)
    requires Fits(ts, s, caps)
    ensures MatchHere(ts, s).Some? && Prefers(MatchHere(ts, s).value, caps)
    decreases |ts|, |s| + 1
  {
    MatchComplete(ts, s, caps);
    if ts != [] {
      match ts[0]
      case Lit(c) =>
        MatchGreedy(ts[1..], s[1..], caps);
      case Any =>
        MatchGreedy(ts[1..], s[1..], caps);
      case Star =>
        DotRunCovers(s, |caps[0]|);
        BacktrackGreedy(ts[1..], s, DotRun(s), caps);
    }
  }

  lemma {:induction false} BacktrackGreedy(rest: seq<Token>, s: string, k: nat, caps: seq<string>)
    requires k <= |s|
    requires |caps| > 0 && |caps[0]| <= k && caps[0] == s[..|caps[0]|]
    requires Fits(rest, s[|caps[0]|..], caps[1..])
    ensures Backtrack(rest, s, k).Some? && Prefers(Backtrack(rest, s, k).value, caps)
    decreases |rest| + 1, k
  {
    BacktrackComplete(rest, s, k, caps);
    match MatchHere(rest, s[k..])
    case Some(cs) =>
      var got := [s[..k]] + cs;
      assert got[0] == s[..k] && got[1..] == cs;
      if k == |caps[0]| {
        MatchGreedy(rest, s[k..], caps[1..]);
      }
    case None =>
      if k == |caps[0]| {
        MatchComplete(rest, s[k..], caps[1..]);
      } else {
        BacktrackGreedy(rest, s, k - 1, caps);
      }
  }

  /** A pattern matches `s` exactly when some start position admits a split. */
  lemma TestMeansSplit(ts: seq<Token>, s: string)
    ensures Search(ts, s, 0).Some? ==> exists j, caps :: 0 <= j <= |s| && Fits(ts, s[j..], caps)
    ensures (exists j, caps :: 0 <= j <= |s| && Fits(ts, s[j..], caps)) ==> Search(ts, s, 0).Some?
  {
    if Search(ts, s, 0).Some? {
      var m := Search(ts, s, 0).value;
      MatchSound(ts, s[m.0..]);
      assert MatchHere(ts, s[m.0..]) == Some(m.1);
      assert Fits(ts, s[m.0..], m.1);
    } else {
      forall j, caps | 0 <= j <= |s| ensures !Fits(ts, s[j..], caps) {
        if Fits(ts, s[j..], caps) {
          MatchComplete(ts, s[j..], caps);
        }
      }
    }
  }

  /**
   * What a successful test returns: a split at the leftmost start position that has
   * one, and among the splits there the one backtracking prefers.
   */
  lemma TestLeftmostGreedy(ts: seq<Token>, s: string)
    requires Search(ts, s, 0).Some?
    ensures var m := Search(ts, s, 0).value;
      && Fits(ts, s[m.0..], m.1)
      && (forall j, caps :: 0 <= j < m.0 ==> !Fits(ts, s[j..], caps))
      && (forall caps :: Fits(ts, s[m.0..], caps) ==> Prefers(m.1, caps))
  {
    var m := Search(ts, s, 0).value;
    MatchSound(ts, s[m.0..]);
    forall j, caps | 0 <= j < m.0 ensures !Fits(ts, s[j..], caps) {
      if Fits(ts, s[j..], caps) {
        MatchComplete(ts, s[j..], caps);
      }
    }
    forall caps | Fits(ts, s[m.0..], caps) ensures Prefers(m.1, caps) {
      MatchGreedy(ts, s[m.0..], caps);
    }
  }

  /** A fitting split has one capture per group. */
  lemma {:induction false} FitsCount(ts: seq<Token>, s: string, caps: seq<string>)
    requires Fits(ts, s, caps)
    ensures |caps| == StarCount(ts)
    decreases ts
  {
    if ts != [] {
      match ts[0]
      case Lit(c) => FitsCount(ts[1..], s[1..], caps);
      case Any => FitsCount(ts[1..], s[1..], caps);
      case Star => FitsCount(ts[1..], s[|caps[0]|..], caps[1..]);
    }
  }

  /** A matching plain key yields one capture per capture name, in declaration order. */
  lemma CapturesPerName(key: string, cls: NameClass, path: string)
    requires PlainKey(key, cls)
    requires Captures(key, cls, path).Some?
    ensures |Captures(key, cls, path).value| == |Names(key, cls)|
  {
    CompileTokens(key, cls);
    var ts := Tokens(Compile(key, cls)).value;
    var m := Search(ts, path, 0).value;
    MatchSound(ts, path[m.0..]);
    FitsCount(ts, path[m.0..], m.1);
  }

  /** A name segment may hold `$`: the key `/:$id` is covered and compiles to one bare group. */
  lemma DollarNameCovered(cls: NameClass)
    ensures PlainKey("/:$id", cls)
    ensures Compile("/:$id", cls) == "(.*)"
    ensures Names("/:$id", cls) == ["$id"]
  {
    var key := "/:$id";
    assert key[2..] == "$id";
    assert NameLen("$id", cls) == 3 by {
      assert "$id"[1..] == "id" && "id"[1..] == "d" && "d"[1..] == "";
    }
    assert key[5..] == "";
    assert Rewrite(key, cls) == Group + Rewrite("", cls);
    assert Group[2..] == "(.*)";
    assert key[2..5] == "$id";
    assert Names("", cls) == [];
    assert Names(key, cls) == [key[2..5]] + Names(key[5..], cls);
  }

  /** The key `/` compiles to the empty pattern, which matches every path with no captures. */
  lemma SlashMatchesEverything(cls: NameClass, path: string)
    ensures PlainKey("/", cls)
    ensures Compile("/", cls) == ""
    ensures Captures("/", cls, path) == Some([])
  {
    assert "/"[1..] == "";
    assert Rewrite("/", cls) == "/";
  }
}
