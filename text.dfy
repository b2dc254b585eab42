/** The few Ruby string operations the core relies on, on `string` (a `seq<char>`). */
module Text {

  /** `s.partition(c)[0]`: the text before the first `c`, or all of `s` when there is none. */
  function Before(s: string, c: char): (r: string)
    ensures r <= s
    ensures c !in r
    ensures |r| < |s| ==> s[|r|] == c
  {
    if s == [] || s[0] == c then [] else [s[0]] + Before(s[1..], c)
  }

  /** `Before` stops at the first `c`: with `c` at index `k` and none before it, it is `s[..k]`. */
  lemma BeforeFirst(s: string, c: char, k: nat)
    requires k < |s| && s[k] == c && c !in s[..k]
    ensures Before(s, c) == s[..k]
  {
  }

  /** Without any `c`, `Before` keeps all of `s`. */
  lemma BeforeAbsent(s: string, c: char)
    requires c !in s
    ensures Before(s, c) == s
  {
  }

  /** A `string` ends with `c` when its last character is `c`. */
  predicate EndsWith(s: string, c: char) {
    s != [] && s[|s| - 1] == c
  }

  /** `s` with every trailing `c` removed. */
  function TrimTrailing(s: string, c: char): (r: string)
    ensures r <= s
    ensures !EndsWith(r, c)
    ensures forall k :: |r| <= k < |s| ==> s[k] == c
  {
    if EndsWith(s, c) then TrimTrailing(s[..|s| - 1], c) else s
  }

  /** The text after the last `c` of `s`, or all of `s` when there is none. */
  function AfterLast(s: string, c: char): (r: string)
    ensures |r| <= |s| && r == s[|s| - |r|..]
    ensures c !in r
    ensures |r| < |s| ==> s[|s| - |r| - 1] == c
  {
    if s == [] then []
    else if s[|s| - 1] == c then []
    else AfterLast(s[..|s| - 1], c) + [s[|s| - 1]]
  }

  /**
   * `s.split('_').last.to_s`: Ruby's split drops the trailing empty fields, so the last
   * field is the text after the last underscore once the trailing underscores are gone
   * (and `nil`, printed as "", when nothing is left).
   */
  function LastField(s: string): (r: string)
    ensures '_' !in r && !EndsWith(r, '_')
  {
    AfterLast(TrimTrailing(s, '_'), '_')
  }

  /** The text after the last `c` of `p + [c] + n`, where `n` holds no `c`, is `n`. */
  lemma {:induction false} AfterLastSuffix(p: string, c: char, n: string)
    requires c !in n
    ensures AfterLast(p + [c] + n, c) == n
    decreases |n|
  {
    var s := p + [c] + n;
    if n != [] {
      var m := n[..|n| - 1];
      assert s[..|s| - 1] == p + [c] + m;
      assert s[|s| - 1] == n[|n| - 1];
      AfterLastSuffix(p, c, m);
      assert m + [n[|n| - 1]] == n;
    }
  }

  /** The last `_`-field of `p + "_" + n`, for a non-empty `n` without `_`, is `n`. */
  lemma LastFieldSuffix(p: string, n: string)
    requires n != [] && '_' !in n
    ensures LastField(p + "_" + n) == n
  {
    var s := p + "_" + n;
    assert s[|s| - 1] == n[|n| - 1];
    assert TrimTrailing(s, '_') == s;
    AfterLastSuffix(p, '_', n);
  }

  /**
   * Position `i` of `s` is where Ruby's `^` anchor matches: the start of the string or
   * the position just after a newline.
   */
  predicate LineStart(s: string, i: int) {
    i == 0 || (0 < i <= |s| && s[i - 1] == '\n')
  }

  /** `s =~ /^lit/` for a literal `lit` without regular-expression metacharacters. */
  predicate MatchesAtLineStart(s: string, lit: string) {
    exists i | 0 <= i <= |s| :: LineStart(s, i) && lit <= s[i..]
  }

  /** For a name on a single line, `/^lit/` is a plain prefix test, in both directions. */
  lemma SingleLineMatchIsPrefix(s: string, lit: string)
    requires '\n' !in s
    ensures MatchesAtLineStart(s, lit) <==> lit <= s
  {
    if MatchesAtLineStart(s, lit) {
      var i :| 0 <= i <= |s| && LineStart(s, i) && lit <= s[i..];
      assert i == 0;
    } else {
      assert !(LineStart(s, 0) && lit <= s[0..]);
      assert s[0..] == s;
    }
  }
}
