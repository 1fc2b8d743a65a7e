/** The JavaScript string built-ins the identity pipeline relies on, with
    the semantics of the ECMAScript `String.prototype` methods for string
    arguments: `indexOf`, `lastIndexOf`, `substring`, `replace` with a
    string pattern, and `repeat`. */
module JsString {

  /** `pat` occurs in `s` starting at index `i`. */
  predicate OccursAt(s: string, pat: string, i: int) {
    0 <= i && i + |pat| <= |s| && s[i..i + |pat|] == pat
  }

  /** Search for `pat` at `k`, `k + 1`, ... */
  function IndexFrom(s: string, pat: string, k: nat): (r: int)
    decreases |s| - k
    ensures r == -1 || (k <= r && OccursAt(s, pat, r))
    ensures r == -1 ==> forall i :: k <= i ==> !OccursAt(s, pat, i)
    ensures r != -1 ==> forall i :: k <= i < r ==> !OccursAt(s, pat, i)
  {
    if k + |pat| > |s| then -1
    else if s[k..k + |pat|] == pat then k
    else IndexFrom(s, pat, k + 1)
  }

  /** `s.indexOf(pat)`: the first index at which `pat` occurs, or -1. */
  function IndexOf(s: string, pat: string): (r: int)
    ensures r == -1 <==> forall i :: !OccursAt(s, pat, i)
    ensures r != -1 ==> OccursAt(s, pat, r) && forall i :: i < r ==> !OccursAt(s, pat, i)
  {
    IndexFrom(s, pat, 0)
  }

  /** Search for `pat` at `k`, `k - 1`, ..., 0. */
  function LastFrom(s: string, pat: string, k: nat): (r: int)
    requires k + |pat| <= |s|
    ensures r == -1 || (r <= k && OccursAt(s, pat, r))
    ensures r == -1 ==> forall i :: i <= k ==> !OccursAt(s, pat, i)
    ensures r != -1 ==> forall i :: r < i <= k ==> !OccursAt(s, pat, i)
  {
    if s[k..k + |pat|] == pat then k
    else if k == 0 then -1
    else LastFrom(s, pat, k - 1)
  }

  /** `s.lastIndexOf(pat)`: the last index at which `pat` occurs, or -1. */
  function LastIndexOf(s: string, pat: string): (r: int)
    ensures r == -1 <==> forall i :: !OccursAt(s, pat, i)
    ensures r != -1 ==> OccursAt(s, pat, r) && forall i :: r < i ==> !OccursAt(s, pat, i)
  {
    if |pat| > |s| then -1 else LastFrom(s, pat, |s| - |pat|)
  }

  /** An index argument of `substring`, clamped into `[0, n]`. */
  function Clamp(i: int, n: nat): (r: nat)
    ensures r <= n
    ensures 0 <= i <= n ==> r == i
  {
    if i < 0 then 0 else if i > n then n else i
  }

  /** `s.substring(start, end)`: both indices are clamped into
      `[0, |s|]`, and swapped when the start is past the end. */
  function Substring(s: string, start: int, end: int): (r: string)
    ensures var a, b := Clamp(start, |s|), Clamp(end, |s|);
      |r| == (if a <= b then b - a else a - b)
    ensures 0 <= start <= end <= |s| ==> r == s[start..end]
    ensures 0 <= end <= start <= |s| ==> r == s[end..start]
    ensures start < 0 && 0 <= end <= |s| ==> r == s[..end]
    ensures end < 0 && 0 <= start <= |s| ==> r == s[..start]
  {
    var a, b := Clamp(start, |s|), Clamp(end, |s|);
    if a <= b then s[a..b] else s[b..a]
  }

  /** `s.replace(pat, rep)` with a string pattern: only the first
      occurrence is replaced; without one, `s` is returned unchanged. */
  function ReplaceFirst(s: string, pat: string, rep: string): (r: string)
    ensures (forall i :: !OccursAt(s, pat, i)) ==> r == s
    ensures OccursAt(s, pat, 0) ==> r == rep + s[|pat|..]
    ensures forall i :: OccursAt(s, pat, i) && (forall j :: 0 <= j < i ==> !OccursAt(s, pat, j)) ==>
              r == s[..i] + rep + s[i + |pat|..]
  {
    var i := IndexOf(s, pat);
    if i == -1 then s else s[..i] + rep + s[i + |pat|..]
  }

  /** The positions of `s` holding a character above U+FFFF, which UTF-16
      writes as a surrogate pair. */
  ghost function Astral(s: string): set<int> {
    set i | 0 <= i < |s| && s[i] as int > 0xFFFF
  }

  /** `s.length`: the number of UTF-16 code units of `s`, two for a
      character above U+FFFF (a surrogate pair) and one for any other. */
  function Utf16Length(s: string): (n: nat)
    ensures n == |s| + |Astral(s)|
    ensures |s| <= n <= 2 * |s|
    ensures (forall i :: 0 <= i < |s| ==> s[i] as int <= 0xFFFF) ==> n == |s|
  {
    if s == [] then 0
    else
      var init := s[..|s| - 1];
      AstralOfInit(s);
      Utf16Length(init) + (if s[|s| - 1] as int > 0xFFFF then 2 else 1)
  }

  /** The astral positions of `s` are those of `s` without its last
      character, plus the last position when that character is astral. */
  lemma AstralOfInit(s: string)
    requires s != []
    ensures |Astral(s)| == |Astral(s[..|s| - 1])| + (if s[|s| - 1] as int > 0xFFFF then 1 else 0)
  {
    var init := s[..|s| - 1];
    var last := |s| - 1;
    assert last !in Astral(init);
    if s[last] as int > 0xFFFF {
      assert Astral(s) == Astral(init) + {last};
    } else {
      assert Astral(s) == Astral(init);
    }
  }

  /** `String(k)` for a non-negative integer `k`: its decimal digits,
      without leading zeros. This is also the property key under which
      an array holds its element `k`. */
  function Decimal(k: nat): (d: string)
    ensures d != []
    ensures forall i :: 0 <= i < |d| ==> '0' <= d[i] <= '9'
    ensures DigitsValue(d) == k
    ensures d[0] == '0' ==> k == 0
    ensures |d| == 1 <==> k < 10
    ensures d[|d| - 1] as int == '0' as int + k % 10
  {
    if k < 10 then [('0' as int + k) as char]
    else
      var d := Decimal(k / 10) + [('0' as int + k % 10) as char];
      assert d[..|d| - 1] == Decimal(k / 10);
      d
  }

  /** The number a string of decimal digits spells, most significant
      digit first. */
  function DigitsValue(d: string): nat
    requires forall i :: 0 <= i < |d| ==> '0' <= d[i] <= '9'
  {
    if d == [] then 0
    else 10 * DigitsValue(d[..|d| - 1]) + (d[|d| - 1] as int - '0' as int)
  }

  /** Different numbers have different decimal forms. */
  lemma {:induction false} DecimalInjective(k: nat, j: nat)
    requires Decimal(k) == Decimal(j)
    ensures k == j
    decreases k
  {
    var d := Decimal(k);
    assert k % 10 == j % 10;
    if k >= 10 {
      assert Decimal(k / 10) == d[..|d| - 1] == Decimal(j / 10);
      DecimalInjective(k / 10, j / 10);
    }
  }

  /** `c.repeat(n)` for a one-character string `c`. */
  function Repeat(c: char, n: nat): (r: string)
    ensures |r| == n
    ensures forall i :: 0 <= i < n ==> r[i] == c
  {
    if n == 0 then [] else [c] + Repeat(c, n - 1)
  }
}
