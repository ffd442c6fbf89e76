/**
 * The URI templates of endpoint descriptors (etsy/_core.py:105-113, 138):
 * `re.findall('{(.*)}', uri)` picks the positional parameter names,
 * `str.replace` turns each `{p}` into `%(p)s`, and `uri_format % ps` fills
 * them in.
 */
module UriTemplate {
  import opened Results
  import opened Values
  import opened Dicts
  import PyStr

  /** The text up to, not including, the first newline: what `.` can run over. */
  function Line(s: string): (l: string)
    ensures PyStr.StartsWith(s, l) && '\n' !in l
    ensures '\n' !in s ==> l == s
  {
    if s == [] || s[0] == '\n' then [] else [s[0]] + Line(s[1..])
  }

  /**
   * `re.findall('{(.*)}', s)`. The scan tries a match at each position from
   * left to right; a match starts at a `{`, and the greedy `.*` runs to the
   * last `}` of the same line. After a match the scan goes on behind its
   * `}`; where no match starts, it moves one character on.
   */
  function Placeholders(s: string): (ps: seq<string>)
    ensures forall i :: 0 <= i < |ps| ==> '\n' !in ps[i]
    decreases |s|
  {
    if s == [] then []
    else if s[0] == '{' && '}' in Line(s[1..]) then
      var j := PyStr.LastIndexOf(Line(s[1..]), '}');
      [Line(s[1..])[..j]] + Placeholders(s[j + 2..])
    else Placeholders(s[1..])
  }

  /** The single name the greedy pattern captures from a one-line URI, if any. */
  function GreedyCapture(s: string): Option<string> {
    if '{' in s && '}' in s[PyStr.IndexOf(s, '{') + 1..] then
      Some(s[PyStr.IndexOf(s, '{') + 1..PyStr.LastIndexOf(s, '}')])
    else None
  }

  lemma {:induction false} NoCloseNoPlaceholders(s: string)
    requires '}' !in s
    ensures Placeholders(s) == []
    decreases |s|
  {
    if s != [] {
      assert '}' !in Line(s[1..]);
      NoCloseNoPlaceholders(s[1..]);
    }
  }

  lemma LastCloseAfterOpen(s: string, i: nat)
    requires i < |s| && '}' in s[i + 1..]
    ensures '}' in s && i < PyStr.LastIndexOf(s, '}')
  {
    var k :| 0 <= k < |s[i + 1..]| && s[i + 1..][k] == '}';
    assert s[i + 1 + k] == '}';
  }

  /** The last `}` of `s` behind its first character is the last `}` of `s[1..]`, one further on. */
  lemma LastCloseOfTail(s: string)
    requires s != [] && '}' in s[1..]
    ensures '}' in s && PyStr.LastIndexOf(s, '}') == PyStr.LastIndexOf(s[1..], '}') + 1
  {
    var m := PyStr.LastIndexOf(s[1..], '}');
    assert s[m + 1] == '}';
  }

  /** A one-line URI that starts with `{`: one capture if a `}` follows, none otherwise. */
  lemma OpenFirst(s: string)
    requires '\n' !in s && s != [] && s[0] == '{'
    ensures Placeholders(s) == (if GreedyCapture(s).Some? then [GreedyCapture(s).value] else [])
  {
    if '}' in s[1..] {
      OpenClosed(s);
    } else {
      OpenUnclosed(s);
    }
  }

  lemma OpenClosed(s: string)
    requires '\n' !in s && s != [] && s[0] == '{' && '}' in s[1..]
    ensures var j := PyStr.LastIndexOf(s[1..], '}');
      Placeholders(s) == [s[1..][..j]] && GreedyCapture(s) == Some(s[1..][..j])
  {
    OpenClosedPlaceholders(s);
    OpenClosedCapture(s);
  }

  /** The match at a leading `{` runs to the last `}`, and nothing behind it matches. */
  lemma OpenClosedPlaceholders(s: string)
    requires '\n' !in s && s != [] && s[0] == '{' && '}' in s[1..]
    ensures Placeholders(s) == [s[1..][..PyStr.LastIndexOf(s[1..], '}')]]
  {
    var t := s[1..];
    var j := PyStr.LastIndexOf(t, '}');
    assert Placeholders(s) == [t[..j]] + Placeholders(s[j + 2..]) by {
      assert Line(t) == t;
    }
    assert Placeholders(s[j + 2..]) == [] by {
      assert s[j + 2..] == t[j + 1..];
      NoCloseNoPlaceholders(s[j + 2..]);
    }
  }

  lemma OpenClosedCapture(s: string)
    requires s != [] && s[0] == '{' && '}' in s[1..]
    ensures GreedyCapture(s) == Some(s[1..][..PyStr.LastIndexOf(s[1..], '}')])
  {
    var j := PyStr.LastIndexOf(s[1..], '}');
    LastCloseOfTail(s);
    assert PyStr.IndexOf(s, '{') == 0;
    CaptureAt(s, 0, j + 1);
    assert s[1..][..j] == s[1..j + 1];
  }

  lemma OpenUnclosed(s: string)
    requires '\n' !in s && s != [] && s[0] == '{' && '}' !in s[1..]
    ensures Placeholders(s) == [] && GreedyCapture(s) == None
  {
    var t := s[1..];
    assert Placeholders(s) == Placeholders(t) by {
      assert Line(t) == t;
    }
    NoCloseNoPlaceholders(t);
    assert PyStr.IndexOf(s, '{') == 0;
  }

  /** A first character other than `{` neither starts a match nor changes the capture. */
  lemma CaptureSkipsFirst(s: string)
    requires s != [] && s[0] != '{'
    ensures GreedyCapture(s) == GreedyCapture(s[1..])
  {
    if '{' !in s {
      assert '{' !in s[1..];
      NoCapture(s);
      NoCapture(s[1..]);
    } else {
      var i := PyStr.IndexOf(s, '{');
      OpenInTail(s, i);
      if '}' in s[i + 1..] {
        CaptureSkipsClosed(s, i);
      } else {
        NoCapture(s);
        NoCapture(s[1..]);
      }
    }
  }

  /** Behind a first character other than `{`, the first `{` moves one place to the front. */
  lemma OpenInTail(s: string, i: nat)
    requires s != [] && s[0] != '{' && '{' in s && i == PyStr.IndexOf(s, '{')
    ensures 1 <= i && '{' in s[1..] && PyStr.IndexOf(s[1..], '{') == i - 1 && s[1..][i..] == s[i + 1..]
  {
    assert s[i] in s[1..];
  }

  lemma CaptureSkipsClosed(s: string, i: nat)
    requires s != [] && s[0] != '{' && '{' in s && i == PyStr.IndexOf(s, '{') && '}' in s[i + 1..]
    requires 1 <= i && '{' in s[1..] && PyStr.IndexOf(s[1..], '{') == i - 1
    ensures GreedyCapture(s) == GreedyCapture(s[1..])
  {
    LastCloseAfterOpen(s, i);
    LastCloseOfTail(s);
    var j := PyStr.LastIndexOf(s, '}');
    CaptureShifted(s, s[1..], i, j);
  }

  /** With every index one further on in `s` than in `t`, both capture the same text. */
  lemma CaptureShifted(s: string, t: string, i: nat, j: nat)
    requires s != [] && t == s[1..] && 1 <= i < j
    requires '{' in s && PyStr.IndexOf(s, '{') == i && '{' in t && PyStr.IndexOf(t, '{') == i - 1
    requires '}' in s && PyStr.LastIndexOf(s, '}') == j && '}' in t && PyStr.LastIndexOf(t, '}') == j - 1
    ensures GreedyCapture(s) == GreedyCapture(t)
  {
    CaptureFrom(s, i, i + 1, j);
    CaptureFrom(t, i - 1, i, j - 1);
    TailSlice(s, i, j - 1, i + 1, j);
  }

  /** The capture of a URI whose first `{` is at `open`, just before `lo`, and whose last `}` is at `hi`. */
  lemma CaptureFrom(s: string, open: nat, lo: nat, hi: nat)
    requires '{' in s && PyStr.IndexOf(s, '{') == open && lo == open + 1
    requires '}' in s && PyStr.LastIndexOf(s, '}') == hi && open < hi
    ensures GreedyCapture(s) == Some(s[lo..hi])
  {
    CaptureAt(s, open, hi);
  }

  lemma NoCapture(s: string)
    requires '{' !in s || '}' !in s[PyStr.IndexOf(s, '{') + 1..]
    ensures GreedyCapture(s) == None
  {
  }

  /** The capture of a URI whose first `{` is at `i` and whose last `}` is at `j` behind it. */
  lemma CaptureAt(s: string, i: nat, j: nat)
    requires '{' in s && PyStr.IndexOf(s, '{') == i
    requires '}' in s && PyStr.LastIndexOf(s, '}') == j && i < j
    ensures GreedyCapture(s) == Some(s[i + 1..j])
  {
    assert s[j] in s[i + 1..];
  }

  lemma TailSlice(s: string, a: nat, b: nat, c: nat, d: nat)
    requires a <= b && c == a + 1 && d == b + 1 && d <= |s|
    ensures s[1..][a..b] == s[c..d]
  {
  }

  /**
   * On a URI without newlines the pattern matches at most once, and the name
   * it captures runs from just behind the first `{` to just before the last `}`.
   */
  lemma {:induction false} OneLinePlaceholders(s: string)
    requires '\n' !in s
    ensures Placeholders(s) == (if GreedyCapture(s).Some? then [GreedyCapture(s).value] else [])
    ensures |Placeholders(s)| <= 1
    decreases |s|
  {
    if s == [] {
    } else if s[0] == '{' {
      OpenFirst(s);
    } else {
      assert Placeholders(s) == Placeholders(s[1..]);
      CaptureSkipsFirst(s);
      OneLinePlaceholders(s[1..]);
    }
  }

  lemma Around(s: string, i: nat, j: nat)
    requires i < j < |s|
    ensures s == s[..i] + [s[i]] + s[i + 1..j] + [s[j]] + s[j + 1..]
  {
    assert s == s[..i] + s[i..];
    assert s[i..] == [s[i]] + s[i + 1..];
    assert s[i + 1..] == s[i + 1..j] + s[j..];
    assert s[j..] == [s[j]] + s[j + 1..];
  }

  /** A one-line URI with a capture is the capture in braces between text without `{` before and `}` behind. */
  lemma CaptureSplits(s: string)
    requires GreedyCapture(s).Some?
    ensures var i, j := PyStr.IndexOf(s, '{'), PyStr.LastIndexOf(s, '}');
      i < j &&
      s == s[..i] + "{" + GreedyCapture(s).value + "}" + s[j + 1..] &&
      '{' !in s[..i] && '}' !in s[j + 1..]
  {
    var i := PyStr.IndexOf(s, '{');
    LastCloseAfterOpen(s, i);
    var j := PyStr.LastIndexOf(s, '}');
    CaptureAt(s, i, j);
    Around(s, i, j);
    assert [s[i]] == "{" && [s[j]] == "}";
    AbsentBefore(s, i, '{');
    AbsentAfter(s, j, '}');
  }

  lemma AbsentBefore(s: string, i: nat, c: char)
    requires i <= |s| && forall k :: 0 <= k < i ==> s[k] != c
    ensures c !in s[..i]
  {
    assert forall k :: 0 <= k < i ==> s[..i][k] == s[k];
  }

  lemma AbsentAfter(s: string, j: nat, c: char)
    requires j < |s| && forall k :: j < k < |s| ==> s[k] != c
    ensures c !in s[j + 1..]
  {
    var r := s[j + 1..];
    assert forall k :: 0 <= k < |r| ==> r[k] == s[j + 1 + k];
  }

  /** `'{%s}' % p` and `'%%(%s)s' % p`. */
  function Brace(p: string): string { "{" + p + "}" }
  function Slot(p: string): string { "%(" + p + ")s" }

  /** A one-line URI `a{p}b` with no `{` in front and no `}` behind has exactly the placeholder `p`. */
  lemma BracedPlaceholder(a: string, p: string, b: string)
    requires '{' !in a && '}' !in b && '\n' !in a + Brace(p) + b
    ensures Placeholders(a + Brace(p) + b) == [p]
  {
    var uri := a + Brace(p) + b;
    BracedOpen(a, p, b);
    BracedClose(a, p, b);
    CaptureAt(uri, |a|, |a| + |p| + 1);
    OneLinePlaceholders(uri);
  }

  /** In `a{p}b` with no `{` in `a`, the first `{` is the one in front of `p`. */
  lemma BracedOpen(a: string, p: string, b: string)
    requires '{' !in a
    ensures var uri := a + Brace(p) + b;
      '{' in uri && PyStr.IndexOf(uri, '{') == |a| && uri[|a| + 1..|a| + |p| + 1] == p
  {
    var uri := a + Brace(p) + b;
    assert uri == a + ("{" + p + "}" + b);
    assert uri[|a|] == '{';
    assert forall k :: 0 <= k < |a| ==> uri[k] == a[k];
  }

  /** In `a{p}b` with no `}` in `b`, the last `}` is the one behind `p`. */
  lemma BracedClose(a: string, p: string, b: string)
    requires '}' !in b
    ensures var uri := a + Brace(p) + b;
      '}' in uri && PyStr.LastIndexOf(uri, '}') == |a| + |p| + 1
  {
    var uri := a + Brace(p) + b;
    var pre := a + "{" + p;
    assert uri == pre + "}" + b;
    assert uri[|pre|] == '}';
    assert forall k :: |pre| < k < |uri| ==> uri[k] == b[k - |pre| - 1];
  }

  /** The `uri_format` that `compile` leaves: each `{p}` replaced by `%(p)s`, one name after the other. */
  function FormatOf(uri: string, names: seq<string>): (f: string)
    ensures (forall i :: 0 <= i < |names| ==> !PyStr.Occurs(uri, Brace(names[i]))) ==> f == uri
    decreases |names|
  {
    if names == [] then uri
    else FormatOf(PyStr.ReplaceAll(uri, Brace(names[0]), Slot(names[0])), names[1..])
  }

  /** A one-line URI `a{p}b` compiles to `a%(p)s b` and nothing else changes. */
  lemma CompileOneLine(a: string, p: string, b: string)
    requires '{' !in a && '}' !in b
    ensures FormatOf(a + Brace(p) + b, [p]) == a + Slot(p) + b
  {
    var pat := Brace(p);
    assert (a + pat + b) == a + (pat + b);
    PyStr.ReplaceSkips(a, pat + b, pat, Slot(p));
    PyStr.ReplaceAtStart(pat + b, pat, Slot(p));
    assert (pat + b)[|pat|..] == b;
    PyStr.NotOccurs(b, pat, '}');
  }

  /** The errors `uri_format % ps` can raise in this model. */
  datatype FormatError =
    | IncompleteFormat
    | IncompleteKey
    | MissingKey(key: string)
    | UnsupportedConversion(c: char)

  /**
   * The offset of the `)` closing a mapping key, counting nested parentheses
   * as CPython does; `depth` is the number of parentheses still open.
   */
  function CloseParen(s: string, depth: nat): (r: Option<nat>)
    requires depth >= 1
    ensures r.Some? ==> r.value < |s| && s[r.value] == ')'
    decreases |s|
  {
    if s == [] then None
    else if s[0] == ')' && depth == 1 then Some(0)
    else
      var inner := CloseParen(s[1..], if s[0] == ')' then depth - 1 else if s[0] == '(' then depth + 1 else depth);
      if inner.Some? then Some(inner.value + 1) else None
  }

  lemma {:induction false} CloseParenPlain(p: string, rest: string)
    requires '(' !in p && ')' !in p
    ensures CloseParen(p + ")" + rest, 1) == Some(|p|)
    decreases |p|
  {
    if p != [] {
      assert (p + ")" + rest)[1..] == p[1..] + ")" + rest;
      CloseParenPlain(p[1..], rest);
    }
  }

  /** Text put in front of a formatting result, errors passed on. */
  function Prepend(pre: string, r: Result<string, FormatError>): Result<string, FormatError> {
    if r.Ok? then Ok(pre + r.value) else r
  }

  /**
   * `fmt % ps` for a dict `ps`: `%%` gives `%`, `%(key)s` gives `str(ps[key])`,
   * and any other conversion is not modelled.
   */
  function Format(fmt: string, ps: Dict<Value>): (r: Result<string, FormatError>)
    ensures r.Err? ==> '%' in fmt
    decreases |fmt|
  {
    if fmt == [] then Ok([])
    else if fmt[0] != '%' then Prepend([fmt[0]], Format(fmt[1..], ps))
    else Directive(fmt[1..], ps)
  }

  /** What follows a `%`: the key is looked up before the conversion character is read. */
  function Directive(d: string, ps: Dict<Value>): Result<string, FormatError>
    decreases |d|
  {
    if d == [] then Err(IncompleteFormat)
    else if d[0] == '%' then Prepend("%", Format(d[1..], ps))
    else if d[0] != '(' then Err(UnsupportedConversion(d[0]))
    else
      var close := CloseParen(d[1..], 1);
      if close.None? then Err(IncompleteKey)
      else
        var key := d[1..1 + close.value];
        var after := d[1 + close.value + 1..];
        if !Has(ps, key) then Err(MissingKey(key))
        else if after == [] then Err(IncompleteFormat)
        else if after[0] != 's' then Err(UnsupportedConversion(after[0]))
        else Prepend(Render(Get(ps, key)), Format(after[1..], ps))
  }

  lemma PrependPrepend(x: string, y: string, r: Result<string, FormatError>)
    ensures Prepend(x, Prepend(y, r)) == Prepend(x + y, r)
  {
    if r.Ok? {
      assert x + (y + r.value) == (x + y) + r.value;
    }
  }

  lemma {:induction false} FormatLiteralPrefix(a: string, rest: string, ps: Dict<Value>)
    requires '%' !in a
    ensures Format(a + rest, ps) == Prepend(a, Format(rest, ps))
    decreases |a|
  {
    if a == [] {
      assert a + rest == rest;
      if Format(rest, ps).Ok? {
        assert a + Format(rest, ps).value == Format(rest, ps).value;
      }
    } else {
      assert (a + rest)[1..] == a[1..] + rest;
      FormatLiteralPrefix(a[1..], rest, ps);
      PrependPrepend([a[0]], a[1..], Format(rest, ps));
      assert [a[0]] + a[1..] == a;
    }
  }

  /** A URI without `%` formats to itself, whatever the arguments. */
  lemma FormatNoPercent(s: string, ps: Dict<Value>)
    requires '%' !in s
    ensures Format(s, ps) == Ok(s)
  {
    FormatLiteralPrefix(s, [], ps);
    assert s + [] == s;
  }

  /**
   * Filling a template with one slot: `a%(p)sb % ps` is `a`, then `str` of
   * the value under `p`, then `b`, and a missing `p` raises `KeyError`.
   */
  lemma FormatOneSlot(a: string, p: string, b: string, ps: Dict<Value>)
    requires '%' !in a && '%' !in b
    requires '(' !in p && ')' !in p
    ensures Has(ps, p) ==> Format(a + Slot(p) + b, ps) == Ok(a + Render(Get(ps, p)) + b)
    ensures !Has(ps, p) ==> Format(a + Slot(p) + b, ps) == Err(MissingKey(p))
  {
    StringAssoc(a, Slot(p), b);
    if Has(ps, p) {
      StringAssoc(a, Render(Get(ps, p)), b);
    }
    FormatLiteralPrefix(a, Slot(p) + b, ps);
    SlotDirective(p, b, ps);
  }

  lemma StringAssoc(x: string, y: string, z: string)
    ensures x + y + z == x + (y + z)
  {
  }

  /** The directive `%(p)s` in front of literal text `b`. */
  lemma SlotDirective(p: string, b: string, ps: Dict<Value>)
    requires '%' !in b && '(' !in p && ')' !in p
    ensures Has(ps, p) ==> Format(Slot(p) + b, ps) == Ok(Render(Get(ps, p)) + b)
    ensures !Has(ps, p) ==> Format(Slot(p) + b, ps) == Err(MissingKey(p))
  {
    var d := (Slot(p) + b)[1..];
    SlotShape(p, b);
    assert Format(Slot(p) + b, ps) == Directive(d, ps);
    CloseParenPlain(p, "s" + b);
    FormatNoPercent(b, ps);
  }

  lemma SlotShape(p: string, b: string)
    ensures var d := (Slot(p) + b)[1..];
      (Slot(p) + b)[0] == '%' && d[0] == '(' && d[1..] == p + ")" + ("s" + b) &&
      d[1..1 + |p|] == p && d[1 + |p| + 1..] == "s" + b && ("s" + b)[0] == 's' && ("s" + b)[1..] == b
  {
    var d := (Slot(p) + b)[1..];
    assert d == "(" + p + ")" + ("s" + b);
  }
}
