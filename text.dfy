/** String helpers of the worker: JavaScript's `slice`, the one-trailing-slash
    trim, `escapeHtml` and `parentPrefix`. */
module Text {
  import opened Seqs

  /** `s.slice(n)` for a non-negative `n`: the empty string once `n` passes the end. */
  function Drop(s: string, n: nat): string {
    if n <= |s| then s[n..] else ""
  }

  /** Removes exactly one trailing `/`, if there is one. This is both
      `replace(/\/$/, "")` and `endsWith("/") ? slice(0, -1) : s`. */
  function TrimTrailingSlash(s: string): string {
    if |s| > 0 && s[|s| - 1] == '/' then s[..|s| - 1] else s
  }

  /** Trimming and appending one `/` are inverse: a text ending in `/` is its
      trimmed form plus `/`, and any other text is left as it is. */
  lemma TrimTrailingSlashSpec(s: string)
    ensures |s| > 0 && s[|s| - 1] == '/' ==> s == TrimTrailingSlash(s) + "/"
    ensures (|s| == 0 || s[|s| - 1] != '/') ==> TrimTrailingSlash(s) == s
    ensures TrimTrailingSlash(s + "/") == s
  {
  }

  // ---------------------------------------------------------------------
  // escapeHtml
  // ---------------------------------------------------------------------

  /** `s.replaceAll(c, rep)` for a one-character pattern `c`. */
  function ReplaceAll(s: string, c: char, rep: string): string {
    if s == "" then ""
    else (if s[0] == c then rep else [s[0]]) + ReplaceAll(s[1..], c, rep)
  }

  /** The five chained `replaceAll` calls, `&` first. */
  function EscapeHtml(s: string): string {
    ReplaceAll(ReplaceAll(ReplaceAll(ReplaceAll(ReplaceAll(
      s, '&', "&amp;"), '<', "&lt;"), '>', "&gt;"), '"', "&quot;"), '\'', "&#39;")
  }

  /** The entity that stands for one character, or the character itself. */
  function Entity(c: char): string {
    match c
    case '&' => "&amp;"
    case '<' => "&lt;"
    case '>' => "&gt;"
    case '"' => "&quot;"
    case '\'' => "&#39;"
    case _ => [c]
  }

  /** Reference definition: every character replaced by its entity independently. */
  function EscapeEach(s: string): string {
    if s == "" then "" else Entity(s[0]) + EscapeEach(s[1..])
  }

  predicate IsSpecial(c: char) {
    c == '&' || c == '<' || c == '>' || c == '"' || c == '\''
  }

  predicate StartsWith(s: string, e: string) {
    |e| <= |s| && s[..|e|] == e
  }

  /** How an HTML parser reads the five entities back (every other `&` is literal). */
  function UnescapeHtml(s: string): string
    decreases |s|
  {
    if s == "" then ""
    else if s[0] != '&' then [s[0]] + UnescapeHtml(s[1..])
    else if StartsWith(s, "&amp;") then "&" + UnescapeHtml(s[5..])
    else if StartsWith(s, "&lt;") then "<" + UnescapeHtml(s[4..])
    else if StartsWith(s, "&gt;") then ">" + UnescapeHtml(s[4..])
    else if StartsWith(s, "&quot;") then "\"" + UnescapeHtml(s[6..])
    else if StartsWith(s, "&#39;") then "'" + UnescapeHtml(s[5..])
    else "&" + UnescapeHtml(s[1..])
  }

  lemma {:induction false} ReplaceAllConcat(a: string, b: string, c: char, rep: string)
    ensures ReplaceAll(a + b, c, rep) == ReplaceAll(a, c, rep) + ReplaceAll(b, c, rep)
  {
    if a != "" {
      var head := if a[0] == c then rep else [a[0]];
      assert (a + b)[0] == a[0] && (a + b)[1..] == a[1..] + b;
      assert ReplaceAll(a + b, c, rep) == head + ReplaceAll(a[1..] + b, c, rep);
      ReplaceAllConcat(a[1..], b, c, rep);
      ConcatAssoc(head, ReplaceAll(a[1..], c, rep), ReplaceAll(b, c, rep));
    } else {
      ConcatEmpty(b);
    }
  }

  lemma {:induction false} ReplaceAllAbsent(s: string, c: char, rep: string)
    requires c !in s
    ensures ReplaceAll(s, c, rep) == s
  {
    if s != "" {
      ReplaceAllAbsent(s[1..], c, rep);
      assert s == [s[0]] + s[1..];
    }
  }

  lemma {:induction false} EscapeHtmlConcat(a: string, b: string)
    ensures EscapeHtml(a + b) == EscapeHtml(a) + EscapeHtml(b)
  {
    var s1a, s1b := ReplaceAll(a, '&', "&amp;"), ReplaceAll(b, '&', "&amp;");
    ReplaceAllConcat(a, b, '&', "&amp;");
    var s2a, s2b := ReplaceAll(s1a, '<', "&lt;"), ReplaceAll(s1b, '<', "&lt;");
    ReplaceAllConcat(s1a, s1b, '<', "&lt;");
    var s3a, s3b := ReplaceAll(s2a, '>', "&gt;"), ReplaceAll(s2b, '>', "&gt;");
    ReplaceAllConcat(s2a, s2b, '>', "&gt;");
    var s4a, s4b := ReplaceAll(s3a, '"', "&quot;"), ReplaceAll(s3b, '"', "&quot;");
    ReplaceAllConcat(s3a, s3b, '"', "&quot;");
    ReplaceAllConcat(s4a, s4b, '\'', "&#39;");
  }

  /** One replacement stage applied to a single character. */
  lemma ReplaceAllChar(x: char, c: char, rep: string)
    ensures ReplaceAll([x], c, rep) == if x == c then rep else [x]
  {
    assert [x][1..] == "";
  }

  /** The replacement stages of `EscapeHtml` from stage `k` (0-based) on. */
  function StagesFrom(s: string, k: nat): string
    requires k <= 5
    decreases 5 - k
  {
    if k == 5 then s
    else StagesFrom(ReplaceAll(s, StageChar(k), Entity(StageChar(k))), k + 1)
  }

  function StageChar(k: nat): char
    requires k < 5
  {
    if k == 0 then '&' else if k == 1 then '<' else if k == 2 then '>' else if k == 3 then '"' else '\''
  }

  lemma EscapeHtmlStages(s: string)
    ensures EscapeHtml(s) == StagesFrom(s, 0)
  {
  }

  lemma {:induction false} StagesOfChar(c: char, k: nat)
    requires k <= 5
    requires forall j :: 0 <= j < k ==> c != StageChar(j)
    ensures StagesFrom([c], k) == Entity(c)
    decreases 5 - k
  {
    if k == 5 {
      assert c != StageChar(0) && c != StageChar(1) && c != StageChar(2);
      assert c != StageChar(3) && c != StageChar(4);
    } else {
      ReplaceAllChar(c, StageChar(k), Entity(StageChar(k)));
      if c == StageChar(k) {
        var e := Entity(c);
        assert StagesFrom([c], k) == StagesFrom(e, k + 1);
        EntityKept(c, k);
      } else {
        StagesOfChar(c, k + 1);
      }
    }
  }

  lemma {:induction false} EntityKept(c: char, k: nat)
    requires k < 5 && c == StageChar(k)
    ensures StagesFrom(Entity(c), k + 1) == Entity(c)
  {
    var e := Entity(c);
    EntitySafe(c);
    var j := k + 1;
    while j < 5
      invariant k + 1 <= j <= 5
      invariant StagesFrom(e, k + 1) == StagesFrom(e, j)
      decreases 5 - j
    {
      var d := StageChar(j);
      assert d == '<' || d == '>' || d == '"' || d == '\'';
      ReplaceAllAbsent(e, d, Entity(d));
      j := j + 1;
    }
  }

  lemma EscapeHtmlChar(c: char)
    ensures EscapeHtml([c]) == Entity(c)
  {
    EscapeHtmlStages([c]);
    StagesOfChar(c, 0);
  }

  /** Because `&` is replaced first, the chain never re-escapes an entity it
      produced: it is the same as escaping each character on its own. */
  lemma {:induction false} EscapeHtmlIsPerCharacter(s: string)
    ensures EscapeHtml(s) == EscapeEach(s)
  {
    if s != "" {
      assert s == [s[0]] + s[1..];
      EscapeHtmlConcat([s[0]], s[1..]);
      EscapeHtmlChar(s[0]);
      EscapeHtmlIsPerCharacter(s[1..]);
    }
  }

  /** No entity, and no character standing for itself other than these four,
      holds `<`, `>`, `"` or `'`. */
  lemma EntitySafe(c: char)
    ensures c != '<' && c != '>' && c != '"' && c != '\'' ==>
      '<' !in Entity(c) && '>' !in Entity(c) && '"' !in Entity(c) && '\'' !in Entity(c)
    ensures IsSpecial(c) ==>
      '<' !in Entity(c) && '>' !in Entity(c) && '"' !in Entity(c) && '\'' !in Entity(c)
  {
  }

  lemma {:induction false} EscapeEachSafe(s: string)
    ensures '<' !in EscapeEach(s) && '>' !in EscapeEach(s)
    ensures '"' !in EscapeEach(s) && '\'' !in EscapeEach(s)
  {
    if s != "" {
      EscapeEachSafe(s[1..]);
      EntitySafe(s[0]);
    }
  }

  /** The escaped text contains none of `<`, `>`, `"`, `'`. */
  lemma EscapeHtmlSafe(s: string)
    ensures '<' !in EscapeHtml(s) && '>' !in EscapeHtml(s)
    ensures '"' !in EscapeHtml(s) && '\'' !in EscapeHtml(s)
  {
    EscapeHtmlIsPerCharacter(s);
    EscapeEachSafe(s);
  }

  /** Text without any of the five special characters is left as it is. */
  lemma {:induction false} EscapeHtmlPlain(s: string)
    requires forall i :: 0 <= i < |s| ==> !IsSpecial(s[i])
    ensures EscapeHtml(s) == s
  {
    EscapeHtmlIsPerCharacter(s);
    EscapeEachPlain(s);
  }

  lemma {:induction false} EscapeEachPlain(s: string)
    requires forall i :: 0 <= i < |s| ==> !IsSpecial(s[i])
    ensures EscapeEach(s) == s
  {
    if s != "" {
      EscapeEachPlain(s[1..]);
    }
  }

  /** `e + rest` starts with `e`, and with no other text whose second character differs. */
  lemma StartsWithConcat(e: string, rest: string, other: string)
    requires |e| >= 2 && |other| >= 2 && e[1] != other[1]
    ensures StartsWith(e + rest, e) && (e + rest)[|e|..] == rest
    ensures !StartsWith(e + rest, other)
  {
    var s := e + rest;
    assert s[..|e|] == e;
  }

  lemma UnescapeEntity(c: char, rest: string)
    ensures UnescapeHtml(Entity(c) + rest) == [c] + UnescapeHtml(rest)
  {
    var e := Entity(c);
    var s := e + rest;
    if c == '&' {
      StartsWithConcat(e, rest, "&lt;");
    } else if c == '<' {
      StartsWithConcat(e, rest, "&amp;");
    } else if c == '>' {
      StartsWithConcat(e, rest, "&amp;");
      StartsWithConcat(e, rest, "&lt;");
    } else if c == '"' {
      StartsWithConcat(e, rest, "&amp;");
      StartsWithConcat(e, rest, "&lt;");
      StartsWithConcat(e, rest, "&gt;");
    } else if c == '\'' {
      StartsWithConcat(e, rest, "&amp;");
      StartsWithConcat(e, rest, "&lt;");
      StartsWithConcat(e, rest, "&gt;");
      StartsWithConcat(e, rest, "&quot;");
    } else {
      assert s[0] == c && s[1..] == rest;
    }
  }

  /** Escaping loses nothing: decoding the five entities recovers the input. */
  lemma {:induction false} EscapeHtmlRoundTrip(s: string)
    ensures UnescapeHtml(EscapeHtml(s)) == s
  {
    EscapeHtmlIsPerCharacter(s);
    EscapeEachRoundTrip(s);
  }

  lemma {:induction false} EscapeEachRoundTrip(s: string)
    ensures UnescapeHtml(EscapeEach(s)) == s
  {
    if s != "" {
      UnescapeEntity(s[0], EscapeEach(s[1..]));
      EscapeEachRoundTrip(s[1..]);
      assert s == [s[0]] + s[1..];
    }
  }

  // ---------------------------------------------------------------------
  // parentPrefix
  // ---------------------------------------------------------------------

  /** `s.lastIndexOf(c)`: the last position holding `c`, or -1. */
  function LastIndexOf(s: string, c: char): (i: int)
    ensures -1 <= i < |s|
    ensures i >= 0 ==> s[i] == c && forall j :: i < j < |s| ==> s[j] != c
    ensures i == -1 <==> c !in s
  {
    if s == "" then -1
    else if s[|s| - 1] == c then |s| - 1
    else LastIndexOf(s[..|s| - 1], c)
  }

  /** The prefix of the enclosing directory, used for the `..` link. */
  function ParentPrefix(pfx: string): string {
    if pfx == "" then ""
    else
      var trimmed := TrimTrailingSlash(pfx);
      var idx := LastIndexOf(trimmed, '/');
      if idx == -1 then "" else trimmed[..idx + 1]
  }

  /** The parent is the root exactly when the input is empty or, once one
      trailing `/` is removed, has no `/` left. */
  lemma ParentPrefixIsRoot(pfx: string)
    ensures ParentPrefix(pfx) == "" <==> pfx == "" || '/' !in TrimTrailingSlash(pfx)
  {
  }

  /** Otherwise the parent is a proper prefix of the input ending in `/`, and
      what it drops is exactly the last path segment. */
  lemma ParentPrefixDropsLastSegment(pfx: string)
    requires pfx != "" && '/' in TrimTrailingSlash(pfx)
    ensures var r := ParentPrefix(pfx);
      && |r| < |pfx| && r == pfx[..|r|] && r[|r| - 1] == '/'
      && exists seg :: TrimTrailingSlash(pfx) == r + seg && '/' !in seg
  {
    var trimmed := TrimTrailingSlash(pfx);
    var idx := LastIndexOf(trimmed, '/');
    var r := trimmed[..idx + 1];
    var seg := trimmed[idx + 1..];
    var n := if pfx[|pfx| - 1] == '/' then |pfx| - 1 else |pfx|;
    assert trimmed == pfx[..n];
    assert idx + 1 < |pfx| by {
      if n == |pfx| {
        assert trimmed[|pfx| - 1] != '/';
      }
    }
    TakeOfTake(pfx, n, idx + 1);
    SplitAt(trimmed, idx + 1);
    assert '/' !in seg by {
      forall k | 0 <= k < |seg| ensures seg[k] != '/' {
        assert seg[k] == trimmed[idx + 1 + k];
      }
    }
  }

  /** Stepping into a sub-directory named `name` and then up again returns
      to the directory itself (with or without the trailing `/`). */
  lemma ParentOfChild(dir: string, name: string)
    requires dir == "" || dir[|dir| - 1] == '/'
    requires name != "" && '/' !in name
    ensures ParentPrefix(dir + name + "/") == dir
    ensures ParentPrefix(dir + name) == dir
  {
    var p := dir + name;
    assert TrimTrailingSlash(p + "/") == p;
    assert TrimTrailingSlash(p) == p;
    var idx := LastIndexOf(p, '/');
    if dir == "" {
      assert p == name;
    } else {
      assert p[|dir| - 1] == '/';
      assert idx == |dir| - 1 by {
        forall j | |dir| <= j < |p| ensures p[j] != '/' {
          assert p[j] == name[j - |dir|];
        }
      }
      assert p[..idx + 1] == dir;
    }
  }
}
