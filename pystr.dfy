/**
 * The Python `str` operations the client relies on, with CPython's semantics:
 * `startswith`, `endswith`, `split` on one character, `join`, `strip`,
 * `lstrip` of a character set, `replace` and `str()` of an integer.
 */
module PyStr {

  predicate StartsWith(s: string, prefix: string) {
    |prefix| <= |s| && s[..|prefix|] == prefix
  }

  predicate EndsWith(s: string, suffix: string) {
    |suffix| <= |s| && s[|s| - |suffix|..] == suffix
  }

  /** Position of the first `c` in `s`. */
  function IndexOf(s: string, c: char): (i: nat)
    requires c in s
    ensures i < |s| && s[i] == c
    ensures forall k :: 0 <= k < i ==> s[k] != c
  {
    if s[0] == c then 0 else 1 + IndexOf(s[1..], c)
  }

  /** Position of the last `c` in `s`. */
  function LastIndexOf(s: string, c: char): (i: nat)
    requires c in s
    ensures i < |s| && s[i] == c
    ensures forall k :: i < k < |s| ==> s[k] != c
  {
    if s[|s| - 1] == c then |s| - 1 else LastIndexOf(s[..|s| - 1], c)
  }

  /** `sep.join(parts)`. */
  function Join(parts: seq<string>, sep: string): string {
    if parts == [] then ""
    else if |parts| == 1 then parts[0]
    else parts[0] + sep + Join(parts[1..], sep)
  }

  /**
   * `s.split(sep)` for a one-character separator: the pieces between
   * separators, always at least one (`"".split(",") == [""]`).
   */
  function Split(s: string, sep: char): (parts: seq<string>)
    ensures |parts| >= 1
    ensures forall k :: 0 <= k < |parts| ==> sep !in parts[k]
    ensures Join(parts, [sep]) == s
    decreases |s|
  {
    if sep in s then
      var i := IndexOf(s, sep);
      assert s == s[..i] + [sep] + s[i + 1..];
      [s[..i]] + Split(s[i + 1..], sep)
    else
      [s]
  }

  lemma SplitNoSeparator(s: string, sep: char)
    requires sep !in s
    ensures Split(s, sep) == [s]
  {
  }

  lemma SplitFirst(a: string, sep: char, rest: string)
    requires sep !in a
    ensures Split(a + [sep] + rest, sep) == [a] + Split(rest, sep)
  {
    var s := a + [sep] + rest;
    assert s[|a|] == sep;
    var i := IndexOf(s, sep);
    assert i == |a|;
    assert s[..i] == a;
    assert s[i + 1..] == rest;
  }

  /** A character missing from `s` is missing from every piece of its split. */
  lemma {:induction false} SplitAbsent(s: string, sep: char, c: char)
    requires c !in s
    ensures forall k :: 0 <= k < |Split(s, sep)| ==> c !in Split(s, sep)[k]
    decreases |s|
  {
    if sep in s {
      var i := IndexOf(s, sep);
      assert c !in s[..i];
      SplitAbsent(s[i + 1..], sep, c);
    }
  }

  /** Splitting at a separator splits both sides independently. */
  lemma {:induction false} SplitAppend(x: string, sep: char, y: string)
    ensures Split(x + [sep] + y, sep) == Split(x, sep) + Split(y, sep)
    decreases |x|
  {
    if sep !in x {
      SplitFirst(x, sep, y);
    } else {
      var i := IndexOf(x, sep);
      var x1, x2 := x[..i], x[i + 1..];
      CutAt(x, sep, i, y);
      calc {
        Split(x + [sep] + y, sep);
        Split(x1 + [sep] + (x2 + [sep] + y), sep);
        { SplitFirst(x1, sep, x2 + [sep] + y); }
        [x1] + Split(x2 + [sep] + y, sep);
        { SplitAppend(x2, sep, y); }
        [x1] + (Split(x2, sep) + Split(y, sep));
        { ListAssoc([x1], Split(x2, sep), Split(y, sep)); }
        [x1] + Split(x2, sep) + Split(y, sep);
        { SplitFirst(x1, sep, x2); }
        Split(x, sep) + Split(y, sep);
      }
    }
  }

  lemma ListAssoc(a: seq<string>, b: seq<string>, c: seq<string>)
    ensures a + (b + c) == a + b + c
  {
  }

  /** Cutting `x` at a separator position regroups `x + [sep] + y` around the cut. */
  lemma CutAt(x: string, sep: char, i: nat, y: string)
    requires i < |x| && x[i] == sep
    ensures x == x[..i] + [sep] + x[i + 1..]
    ensures x + [sep] + y == x[..i] + [sep] + (x[i + 1..] + [sep] + y)
  {
    assert x == x[..i] + [sep] + x[i + 1..];
  }

  /**
   * `c.isspace()`: the ASCII controls tab to carriage return, the separators
   * U+001C to U+001F, space, and the Unicode spaces.
   */
  predicate IsSpace(c: char) {
    '\t' <= c <= '\r' || '\U{1C}' <= c <= ' ' || c == '\U{85}' || c == '\U{A0}' || c == '\U{1680}' ||
    '\U{2000}' <= c <= '\U{200A}' || c == '\U{2028}' || c == '\U{2029}' || c == '\U{202F}' ||
    c == '\U{205F}' || c == '\U{3000}'
  }

  /** The characters `str.strip()` removes. */
  const Whitespace: set<char> := set c: char | '\t' <= c <= '\U{3000}' && IsSpace(c)

  /** `s.lstrip(chars)`: drops the longest prefix made only of characters in `chars`. */
  function LStrip(s: string, chars: set<char>): (r: string)
    ensures |r| <= |s| && r == s[|s| - |r|..]
    ensures forall k :: 0 <= k < |s| - |r| ==> s[k] in chars
    ensures r == [] || r[0] !in chars
  {
    if s != [] && s[0] in chars then LStrip(s[1..], chars) else s
  }

  /** A prefix made only of stripped characters disappears entirely. */
  lemma {:induction false} LStripPrefix(p: string, u: string, chars: set<char>)
    requires forall k :: 0 <= k < |p| ==> p[k] in chars
    ensures LStrip(p + u, chars) == LStrip(u, chars)
  {
    if p == [] {
      assert p + u == u;
    } else {
      assert (p + u)[1..] == p[1..] + u;
      LStripPrefix(p[1..], u, chars);
    }
  }

  /** `s.rstrip(chars)`: drops the longest suffix made only of characters in `chars`. */
  function RStrip(s: string, chars: set<char>): (r: string)
    ensures |r| <= |s| && r == s[..|r|]
    ensures forall k :: |r| <= k < |s| ==> s[k] in chars
    ensures r == [] || r[|r| - 1] !in chars
  {
    if s != [] && s[|s| - 1] in chars then RStrip(s[..|s| - 1], chars) else s
  }

  /** `s.strip()`: leading and trailing whitespace removed. */
  function Strip(s: string): (r: string)
    ensures forall c :: c in r ==> c in s
  {
    RStrip(LStrip(s, Whitespace), Whitespace)
  }

  /** A string without surrounding whitespace is its own `strip()`. */
  lemma StripTrimmed(s: string)
    requires s == [] || (s[0] !in Whitespace && s[|s| - 1] !in Whitespace)
    ensures Strip(s) == s
  {
  }

  /** Leading blanks never survive `strip()`. */
  lemma StripLeadingSpace(s: string)
    ensures Strip([' '] + s) == Strip(s)
  {
    assert ([' '] + s)[1..] == s;
  }

  /** `pat` appears in `s` starting at some position. */
  predicate Occurs(s: string, pat: string)
    decreases |s|
  {
    StartsWith(s, pat) || (s != [] && Occurs(s[1..], pat))
  }

  /** A string lacking one of `pat`'s characters cannot contain `pat`. */
  lemma {:induction false} NotOccurs(s: string, pat: string, c: char)
    requires c in pat && c !in s
    ensures !Occurs(s, pat)
    decreases |s|
  {
    if s != [] {
      NotOccurs(s[1..], pat, c);
    }
  }

  /**
   * `s.replace(pat, sub)`: every occurrence of `pat`, taken left to right
   * without overlap, replaced by `sub`.
   */
  function ReplaceAll(s: string, pat: string, sub: string): (r: string)
    requires pat != []
    ensures !Occurs(s, pat) ==> r == s
    decreases |s|
  {
    if |s| < |pat| then s
    else if s[..|pat|] == pat then sub + ReplaceAll(s[|pat|..], pat, sub)
    else [s[0]] + ReplaceAll(s[1..], pat, sub)
  }

  /** Text before the first possible start of `pat` is copied unchanged. */
  lemma {:induction false} ReplaceSkips(a: string, rest: string, pat: string, sub: string)
    requires pat != [] && pat[0] !in a
    ensures ReplaceAll(a + rest, pat, sub) == a + ReplaceAll(rest, pat, sub)
    decreases |a|
  {
    if a == [] {
      assert a + rest == rest;
    } else {
      var s := a + rest;
      assert s[0] == a[0];
      if |s| < |pat| {
        // `rest` is then shorter than `pat` as well
        assert ReplaceAll(rest, pat, sub) == rest;
      } else {
        assert s[..|pat|][0] != pat[0];
        assert s[1..] == a[1..] + rest;
        calc {
          ReplaceAll(s, pat, sub);
          [s[0]] + ReplaceAll(a[1..] + rest, pat, sub);
          { ReplaceSkips(a[1..], rest, pat, sub); }
          [a[0]] + (a[1..] + ReplaceAll(rest, pat, sub));
          { assert [a[0]] + a[1..] == a; }
          a + ReplaceAll(rest, pat, sub);
        }
      }
    }
  }

  lemma ReplaceAtStart(s: string, pat: string, sub: string)
    requires pat != [] && StartsWith(s, pat)
    ensures ReplaceAll(s, pat, sub) == sub + ReplaceAll(s[|pat|..], pat, sub)
  {
  }

  /** One digit character. */
  function Digit(d: nat): (c: char)
    requires d < 10
    ensures '0' <= c <= '9'
  {
    "0123456789"[d]
  }

  function NatDigits(n: nat): (s: string)
    ensures s != [] && forall k :: 0 <= k < |s| ==> '0' <= s[k] <= '9'
    decreases n
  {
    if n < 10 then [Digit(n)] else NatDigits(n / 10) + [Digit(n % 10)]
  }

  /** `str(n)` for a Python integer. */
  function DecimalString(n: int): string {
    if n < 0 then "-" + NatDigits(-n) else NatDigits(n)
  }
}
