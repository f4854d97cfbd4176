/**
 * String helpers shared by the pages: case folding, whitespace, trimming,
 * substring search, joining and download-name slugs.
 *
 * Strings are sequences of characters. Case folding and whitespace are the
 * ASCII subset of what the JavaScript runtime does (`toLowerCase`, `trim`,
 * the regex class `\s`).
 */
module Text {

  predicate IsUpper(c: char) {
    'A' <= c <= 'Z'
  }

  /** `toLowerCase` on one character. */
  function LowerChar(c: char): (r: char)
    ensures !IsUpper(r)
    ensures !IsUpper(c) ==> r == c
    ensures IsUpper(c) ==> r as int == c as int + 32
  {
    if IsUpper(c) then (c as int + 32) as char else c
  }

  /** `toLowerCase` on a string: folds every character, keeps the length. */
  function Lower(s: string): (r: string)
    ensures |r| == |s|
    ensures forall i :: 0 <= i < |s| ==> r[i] == LowerChar(s[i])
  {
    if s == [] then [] else [LowerChar(s[0])] + Lower(s[1..])
  }

  /** Folding twice is folding once, so a folded query folds to itself. */
  lemma LowerIdempotent(s: string)
    ensures Lower(Lower(s)) == Lower(s)
  {
  }

  /** Folding distributes over concatenation. */
  lemma LowerAppend(a: string, b: string)
    ensures Lower(a + b) == Lower(a) + Lower(b)
  {
  }

  /** The characters `trim` removes and the regex class `\s` matches: space, tab, LF, VT, FF, CR. */
  predicate IsWhitespace(c: char) {
    c == ' ' || c == '\t' || c == '\n' || c == '\U{B}' || c == '\U{C}' || c == '\r'
  }

  /** Every character of `s` is whitespace. */
  predicate Blank(s: string) {
    forall i :: 0 <= i < |s| ==> IsWhitespace(s[i])
  }

  /** Drops leading whitespace: the result is the suffix of `s` after its leading whitespace. */
  function TrimStart(s: string): (r: string)
    ensures |r| <= |s| && r == s[|s| - |r|..]
    ensures Blank(s[..|s| - |r|])
    ensures r == [] || !IsWhitespace(r[0])
  {
    if s != [] && IsWhitespace(s[0]) then TrimStart(s[1..]) else s
  }

  /** Drops trailing whitespace: the result is the prefix of `s` before its trailing whitespace. */
  function TrimEnd(s: string): (r: string)
    ensures |r| <= |s| && r == s[..|r|]
    ensures Blank(s[|r|..])
    ensures r == [] || !IsWhitespace(r[|r| - 1])
  {
    if s != [] && IsWhitespace(s[|s| - 1]) then TrimEnd(s[..|s| - 1]) else s
  }

  /** `trim`. */
  function Trim(s: string): string {
    TrimEnd(TrimStart(s))
  }

  /** A string trims to the empty string exactly when all of it is whitespace. */
  lemma TrimEmptyIffBlank(s: string)
    ensures Trim(s) == [] <==> Blank(s)
  {
    var t := TrimStart(s);
    if Trim(s) == [] {
      assert Blank(t[|TrimEnd(t)|..]);
      assert t == [];
      assert s == s[..|s| - |t|];
    } else {
      var e := TrimEnd(t);
      assert !IsWhitespace(e[|e| - 1]);
      assert e[|e| - 1] == s[|s| - |t| + |e| - 1];
    }
  }

  /** `startsWith`: `t` is a prefix of `s`. */
  predicate StartsWith(s: string, t: string) {
    t <= s
  }

  /** `includes`: `t` occurs in `s` at some position. */
  predicate Contains(s: string, t: string) {
    t <= s || (s != [] && Contains(s[1..], t))
  }

  /** An occurrence at position `i` is found. */
  lemma {:induction false} ContainsAt(s: string, t: string, i: nat)
    requires i + |t| <= |s| && s[i..i + |t|] == t
    ensures Contains(s, t)
  {
    if i > 0 {
      assert s[1..][i - 1..i - 1 + |t|] == s[i..i + |t|];
      ContainsAt(s[1..], t, i - 1);
    } else {
      assert t == s[..|t|];
    }
  }

  /** Whatever is found occurs at some position. */
  lemma {:induction false} ContainsHasPosition(s: string, t: string) returns (i: nat)
    requires Contains(s, t)
    ensures i + |t| <= |s| && s[i..i + |t|] == t
  {
    if t <= s {
      i := 0;
    } else {
      var j := ContainsHasPosition(s[1..], t);
      assert s[1..][j..j + |t|] == s[j + 1..j + 1 + |t|];
      i := j + 1;
    }
  }

  /** The empty string occurs in every string. */
  lemma ContainsEmpty(s: string)
    ensures Contains(s, "")
  {
  }

  /** Occurrence is transitive: a text containing `t` contains everything `t` contains. */
  lemma ContainsTrans(s: string, t: string, u: string)
    requires Contains(s, t) && Contains(t, u)
    ensures Contains(s, u)
  {
    var i := ContainsHasPosition(s, t);
    var j := ContainsHasPosition(t, u);
    forall k | 0 <= k < |u|
      ensures s[i + j + k] == u[k]
    {
      assert s[i..i + |t|][j + k] == t[j + k];
      assert t[j..j + |u|][k] == u[k];
    }
    assert s[i + j..i + j + |u|] == u;
    ContainsAt(s, u, i + j);
  }

  /** `Array.prototype.join(sep)` over strings. */
  function Join(xs: seq<string>, sep: string): string {
    if |xs| == 0 then "" else if |xs| == 1 then xs[0] else xs[0] + sep + Join(xs[1..], sep)
  }

  /** Joining one more piece adds the separator and that piece at the end. */
  lemma {:induction false} JoinSnoc(xs: seq<string>, y: string, sep: string)
    requires xs != []
    ensures Join(xs + [y], sep) == Join(xs, sep) + sep + y
  {
    if |xs| == 1 {
      assert xs + [y] == [xs[0], y];
    } else {
      assert (xs + [y])[1..] == xs[1..] + [y];
      JoinSnoc(xs[1..], y, sep);
    }
  }

  /**
   * `replace(/\s+/g, "-")`: each maximal run of whitespace becomes one dash.
   * `inRun` says whether the character before `s` was whitespace.
   */
  function DashRuns(s: string, inRun: bool): (r: string)
    ensures forall i :: 0 <= i < |r| ==> !IsWhitespace(r[i])
    ensures |r| <= |s|
    ensures (forall i :: 0 <= i < |s| ==> !IsWhitespace(s[i])) ==> r == s
  {
    if s == [] then []
    else if IsWhitespace(s[0]) then (if inRun then "" else "-") + DashRuns(s[1..], true)
    else [s[0]] + DashRuns(s[1..], false)
  }

  /** Whether a run of whitespace is open at the end of `s`, given `inRun` before it. */
  function EndsInRun(s: string, inRun: bool): bool {
    if s == [] then inRun else IsWhitespace(s[|s| - 1])
  }

  lemma AppendAssoc(x: string, y: string, z: string)
    ensures x + (y + z) == (x + y) + z
  {
  }

  /** One step of the replacement: the first character, then the rest with the run state it leaves. */
  lemma DashRunsCons(c: char, rest: string, inRun: bool)
    ensures DashRuns([c] + rest, inRun)
      == (if IsWhitespace(c) then (if inRun then "" else "-") else [c]) + DashRuns(rest, IsWhitespace(c))
  {
    assert ([c] + rest)[0] == c && ([c] + rest)[1..] == rest;
  }

  /** Replacing runs works piece by piece, the second piece continuing the run the first ends in. */
  lemma {:induction false} DashRunsAppend(a: string, b: string, inRun: bool)
    ensures DashRuns(a + b, inRun) == DashRuns(a, inRun) + DashRuns(b, EndsInRun(a, inRun))
  {
    if a == [] {
      assert a + b == b;
    } else {
      var c, t := a[0], a[1..];
      var ws := IsWhitespace(c);
      assert a == [c] + t;
      assert a + b == [c] + (t + b);
      DashRunsCons(c, t + b, inRun);
      DashRunsCons(c, t, inRun);
      DashRunsAppend(t, b, ws);
      assert EndsInRun(t, ws) == EndsInRun(a, inRun);
      AppendAssoc(if ws then (if inRun then "" else "-") else [c], DashRuns(t, ws), DashRuns(b, EndsInRun(a, inRun)));
    }
  }

  lemma {:induction false} DashRunsBlank(w: string, inRun: bool)
    requires w != [] && Blank(w)
    ensures DashRuns(w, inRun) == (if inRun then "" else "-")
  {
    if |w| > 1 {
      DashRunsBlank(w[1..], true);
    }
  }

  /** The download-name slug: `toLowerCase().replace(/\s+/g, "-")`. */
  function Slug(title: string): (r: string)
    ensures forall i :: 0 <= i < |r| ==> !IsWhitespace(r[i])
    ensures |r| <= |title|
  {
    DashRuns(Lower(title), false)
  }

  /** Folding never creates or removes whitespace. */
  lemma LowerKeepsWhitespace(s: string)
    ensures forall i :: 0 <= i < |s| ==> (IsWhitespace(Lower(s)[i]) <==> IsWhitespace(s[i]))
  {
  }

  /**
   * A whitespace run between two words becomes exactly one dash: the slug of
   * `a + w + b` is the slug of `a`, a dash, and the slug of `b`.
   */
  lemma SlugRun(a: string, w: string, b: string)
    requires a == [] || !IsWhitespace(a[|a| - 1])
    requires w != [] && Blank(w)
    requires b == [] || !IsWhitespace(b[0])
    ensures Slug(a + w + b) == Slug(a) + "-" + Slug(b)
  {
    LowerAppend(a + w, b);
    LowerAppend(a, w);
    LowerKeepsWhitespace(a);
    LowerKeepsWhitespace(w);
    LowerKeepsWhitespace(b);
    var la, lw, lb := Lower(a), Lower(w), Lower(b);
    assert Blank(lw);
    DashRunsAppend(la + lw, lb, false);
    DashRunsAppend(la, lw, false);
    assert !EndsInRun(la, false);
    DashRunsBlank(lw, false);
    assert EndsInRun(la + lw, false);
    if lb != [] {
      assert DashRuns(lb, true) == DashRuns(lb, false);
    }
  }

  /** A title without whitespace slugs to its folded form. */
  lemma SlugWithoutWhitespace(title: string)
    requires forall i :: 0 <= i < |title| ==> !IsWhitespace(title[i])
    ensures Slug(title) == Lower(title)
  {
    LowerKeepsWhitespace(title);
  }
}
