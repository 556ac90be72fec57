/**
 * The few JavaScript string built-ins the router and the request helpers rely on,
 * with the semantics ECMAScript gives them: `indexOf` (first occurrence), `replace`
 * with a string pattern (first occurrence only, with `$`-patterns expanded in the
 * replacement), `split(c)[0]` and `split(c)[1]`, and ASCII lower-casing.
 */
module Js {

  import opened Options

  /** `pat` occurs in `s` at index `j`. */
  predicate OccursAt(s: string, pat: string, j: nat)
  {
    j + |pat| <= |s| && s[j..j + |pat|] == pat
  }

  /** `s.indexOf(pat, i)`: the first index at or after `i` where `pat` occurs. */
  function IndexOfFrom(s: string, pat: string, i: nat): (r: Option<nat>)
    requires i <= |s|
    ensures r.Some? ==> i <= r.value && OccursAt(s, pat, r.value)
    ensures r.Some? ==> forall j :: i <= j < r.value ==> !OccursAt(s, pat, j)
    ensures r.None? ==> forall j :: i <= j <= |s| ==> !OccursAt(s, pat, j)
    decreases |s| - i
  {
    if i + |pat| > |s| then None
    else if OccursAt(s, pat, i) then Some(i)
    else if i == |s| then None
    else IndexOfFrom(s, pat, i + 1)
  }

  /** `s.indexOf(pat)`. */
  function IndexOf(s: string, pat: string): Option<nat>
  {
    IndexOfFrom(s, pat, 0)
  }

  /** `!!~s.indexOf(pat)`: `pat` is a substring of `s`. */
  predicate Contains(s: string, pat: string)
  {
    IndexOf(s, pat).Some?
  }

  lemma ContainsIff(s: string, pat: string)
    ensures Contains(s, pat) <==> exists j :: 0 <= j <= |s| && OccursAt(s, pat, j)
  {
  }

  /** A one-character pattern is found exactly when the character occurs. */
  lemma {:induction false} IndexOfChar(s: string, c: char)
    ensures IndexOf(s, [c]).None? <==> c !in s
    ensures IndexOf(s, [c]).Some? ==> s[IndexOf(s, [c]).value] == c
    ensures IndexOf(s, [c]).Some? ==> c !in s[..IndexOf(s, [c]).value]
  {
    var r := IndexOf(s, [c]);
    if r.None? {
      forall k | 0 <= k < |s| ensures s[k] != c {
        assert !OccursAt(s, [c], k);
        assert s[k..k + 1] == [s[k]];
      }
    } else {
      assert s[r.value..r.value + 1] == [c];
      assert s[r.value] == s[r.value..r.value + 1][0];
      forall k | 0 <= k < r.value ensures s[..r.value][k] != c {
        assert !OccursAt(s, [c], k);
        assert s[k..k + 1] == [s[k]];
      }
    }
  }

  /**
   * GetSubstitution for a string pattern (no capture groups): in the replacement text
   * `$$` stands for `$`, `$&` for the matched text, `` $` `` for the text before the
   * match and `$'` for the text after it; every other `$` is kept literally.
   */
  function Expand(repl: string, matched: string, before: string, after: string): string
    decreases |repl|
  {
    if |repl| >= 2 && repl[0] == '$' && repl[1] == '$' then "$" + Expand(repl[2..], matched, before, after)
    else if |repl| >= 2 && repl[0] == '$' && repl[1] == '&' then matched + Expand(repl[2..], matched, before, after)
    else if |repl| >= 2 && repl[0] == '$' && repl[1] == '`' then before + Expand(repl[2..], matched, before, after)
    else if |repl| >= 2 && repl[0] == '$' && repl[1] == '\'' then after + Expand(repl[2..], matched, before, after)
    else if repl == [] then []
    else [repl[0]] + Expand(repl[1..], matched, before, after)
  }

  /** A replacement text without `$` is inserted verbatim. */
  lemma {:induction false} ExpandPlain(repl: string, matched: string, before: string, after: string)
    requires '$' !in repl
    ensures Expand(repl, matched, before, after) == repl
  {
    if repl != [] {
      assert repl[0] != '$';
      assert '$' !in repl[1..] by {
        forall k | 0 <= k < |repl[1..]| ensures repl[1..][k] != '$' {
          assert repl[1..][k] == repl[k + 1];
        }
      }
      ExpandPlain(repl[1..], matched, before, after);
    }
  }

  /** `s.replace(pat, repl)` with a string `pat`: only the first occurrence is replaced. */
  function ReplaceFirst(s: string, pat: string, repl: string): string
  {
    match IndexOf(s, pat)
    case None => s
    case Some(p) =>
      s[..p] + Expand(repl, pat, s[..p], s[p + |pat|..]) + s[p + |pat|..]
  }

  /**
   * Replacing touches only the first occurrence: the text before it and after it is
   * kept, and the occurrence becomes the expanded replacement text, which is the
   * replacement itself when it holds no `$`.  Without an occurrence nothing changes.
   */
  lemma ReplaceFirstSpec(s: string, pat: string, repl: string)
    ensures IndexOf(s, pat).None? ==> ReplaceFirst(s, pat, repl) == s
    ensures IndexOf(s, pat).Some? ==>
      var p := IndexOf(s, pat).value;
      && OccursAt(s, pat, p)
      && (forall j :: 0 <= j < p ==> !OccursAt(s, pat, j))
      && ReplaceFirst(s, pat, repl) == s[..p] + Expand(repl, pat, s[..p], s[p + |pat|..]) + s[p + |pat|..]
    ensures IndexOf(s, pat).Some? && '$' !in repl ==>
      var p := IndexOf(s, pat).value;
      ReplaceFirst(s, pat, repl) == s[..p] + repl + s[p + |pat|..]
  {
    match IndexOf(s, pat)
    case None =>
    case Some(p) =>
      if '$' !in repl {
        ExpandPlain(repl, pat, s[..p], s[p + |pat|..]);
      }
  }

  function LowerChar(c: char): char
  {
    if 'A' <= c <= 'Z' then (c as int + 32) as char else c
  }

  /** `s.toLowerCase()` restricted to ASCII letters. */
  function LowerAscii(s: string): (r: string)
    ensures |r| == |s|
    ensures forall i :: 0 <= i < |s| ==> r[i] == LowerChar(s[i])
  {
    seq(|s|, i requires 0 <= i < |s| => LowerChar(s[i]))
  }

  /** `s.split(c)[0]`: the text before the first `c`, or all of `s`. */
  function Before(s: string, c: char): (r: string)
    ensures c !in r
    ensures r <= s
    ensures c in s ==> |r| < |s| && s[|r|] == c
    ensures c !in s ==> r == s
  {
    IndexOfChar(s, c);
    match IndexOf(s, [c])
    case None => s
    case Some(p) => s[..p]
  }

  /** `s.split(c)[1]`: the text between the first and the second `c`; `undefined` without a `c`. */
  function SecondPiece(s: string, c: char): (r: Option<string>)
    ensures r.None? <==> c !in s
    ensures r.Some? ==> c !in r.value
  {
    IndexOfChar(s, c);
    match IndexOf(s, [c])
    case None => None
    case Some(p) => Some(Before(s[p + 1..], c))
  }

  /** For `w + [c] + rest` with no `c` in `w`, the pieces are `w` and `rest` up to its first `c`. */
  lemma {:induction false} PiecesOf(w: string, c: char, rest: string)
    requires c !in w
    ensures Before(w + [c] + rest, c) == w
    ensures SecondPiece(w + [c] + rest, c) == Some(Before(rest, c))
  {
    var s := w + [c] + rest;
    IndexOfChar(s, c);
    var p := IndexOf(s, [c]).value;
    assert s[|w|] == c;
    assert s[..p] == w;
    assert s[p + 1..] == rest;
  }
}
