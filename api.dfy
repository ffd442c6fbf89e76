/**
 * The call path of `EtsyAPI` (etsy/_core.py:78-138, 191-262): an endpoint
 * object binds positional and keyword arguments, fills its URI template,
 * has the type checker vet the rest, and `_execute` substitutes `:name` path
 * segments and decides how the remaining arguments travel.
 */
module Api {
  import opened Results
  import opened Values
  import opened Dicts
  import opened Descriptors
  import PyStr
  import TypeCheck
  import UriTemplate
  import MethodCache
  import OAuth
  import Environments

  /** How the arguments are sent: as query parameters (`params=`) or as a form body (`data=`). */
  datatype Transport = Query | Body

  /** The request `_execute` would hand to `requests`. */
  datatype Request = Request(verb: string, transport: Transport, url: string, params: Dict<Value>, auth: Option<OAuth.OAuth1>)

  datatype ExecError = UnsupportedMethod(verb: string)

  /** The verb dispatch of `_execute`. */
  function Classify(verb: string): (t: Option<Transport>)
    ensures t == Some(Query) <==> verb == "GET" || verb == "DELETE"
    ensures t == Some(Body) <==> verb == "POST" || verb == "PUT"
    ensures t.None? <==> verb !in {"GET", "DELETE", "POST", "PUT"}
  {
    if verb == "GET" || verb == "DELETE" then Some(Query)
    else if verb == "POST" || verb == "PUT" then Some(Body)
    else None
  }

  /** `item.lstrip(':')`. */
  function ColonKey(item: string): string {
    PyStr.LStrip(item, {':'})
  }

  /**
   * The rewrite loop of `_execute` over the segments `items` of the original
   * URL: a segment starting with `:` whose key is still among the arguments
   * has every occurrence in the URL replaced by `str` of the value, and the
   * key is deleted from the arguments.
   */
  function Rewrite(url: string, items: seq<string>, kwargs: Dict<Value>): (r: (string, Dict<Value>))
    ensures |r.1| <= |kwargs|
    ensures forall k :: Has(r.1, k) ==> Has(kwargs, k) && Get(r.1, k) == Get(kwargs, k)
    decreases |items|
  {
    if items == [] then (url, kwargs)
    else if PyStr.StartsWith(items[0], ":") && Has(kwargs, ColonKey(items[0])) then
      var key := ColonKey(items[0]);
      Rewrite(PyStr.ReplaceAll(url, items[0], Render(Get(kwargs, key))), items[1..], Del(kwargs, key))
    else Rewrite(url, items[1..], kwargs)
  }

  /** One round of the rewrite loop, at segment `i`. */
  lemma RewriteStep(url: string, items: seq<string>, i: nat, kwargs: Dict<Value>)
    requires i < |items|
    ensures var item, key := items[i], ColonKey(items[i]);
      Rewrite(url, items[i..], kwargs) ==
        if PyStr.StartsWith(item, ":") && Has(kwargs, key)
        then Rewrite(PyStr.ReplaceAll(url, item, Render(Get(kwargs, key))), items[i + 1..], Del(kwargs, key))
        else Rewrite(url, items[i + 1..], kwargs)
  {
    assert items[i..][0] == items[i] && items[i..][1..] == items[i + 1..];
  }

  /** The loop of `_execute` over the `/`-separated segments of the URL. */
  method RewriteLoop(url: string, kwargs: Dict<Value>) returns (u: string, kw: Dict<Value>)
    ensures (u, kw) == Rewrite(url, PyStr.Split(url, '/'), kwargs)
  {
    u, kw := RewriteItems(url, PyStr.Split(url, '/'), kwargs);
  }

  method RewriteItems(url: string, items: seq<string>, kwargs: Dict<Value>) returns (u: string, kw: Dict<Value>)
    ensures (u, kw) == Rewrite(url, items, kwargs)
  {
    u, kw := url, kwargs;
    var i := 0;
    while i < |items|
      invariant 0 <= i <= |items|
      invariant Rewrite(url, items, kwargs) == Rewrite(u, items[i..], kw)
    {
      var item := items[i];
      var u', kw' := u, kw;
      if PyStr.StartsWith(item, ":") {
        var key := ColonKey(item);
        if Has(kw, key) {
          u' := PyStr.ReplaceAll(u, item, Render(Get(kw, key)));
          kw' := Del(kw, key);
        }
      }
      assert Rewrite(u, items[i..], kw) == Rewrite(u', items[i + 1..], kw') by {
        RewriteStep(u, items, i, kw);
      }
      u, kw := u', kw';
      i := i + 1;
    }
    assert items[i..] == [];
  }

  /** The keys named by the `:` segments among `items`. */
  function ColonKeys(items: seq<string>): set<string>
    decreases |items|
  {
    if items == [] then {}
    else (if PyStr.StartsWith(items[0], ":") then {ColonKey(items[0])} else {}) + ColonKeys(items[1..])
  }

  /** `_execute`: the request sent for a verb, a URL and keyword arguments. */
  function ExecuteSpec(apiUrl: string, verb: string, url: string, kwargs: Dict<Value>, auth: Option<OAuth.OAuth1>): (r: Result<Request, ExecError>)
    ensures r.Err? <==> Classify(verb).None?
    ensures r.Err? ==> r.error == UnsupportedMethod(verb)
    ensures r.Ok? ==> r.value.verb == verb && r.value.transport == Classify(verb).value && r.value.auth == auth
    ensures r.Ok? ==> PyStr.StartsWith(r.value.url, apiUrl)
  {
    var (path, rest) := Rewrite(url, PyStr.Split(url, '/'), kwargs);
    var transport := Classify(verb);
    if transport.None? then Err(UnsupportedMethod(verb))
    else Ok(Request(verb, transport.value, apiUrl + path, rest, auth))
  }

  /** Exactly the keys of the `:` segments are consumed; every other argument is sent unchanged. */
  lemma {:induction false} RewriteDropsColonKeys(url: string, items: seq<string>, kwargs: Dict<Value>)
    ensures Rewrite(url, items, kwargs).1 == Without(kwargs, ColonKeys(items))
    decreases |items|
  {
    if items == [] {
      WithoutNothing(kwargs, {});
    } else {
      var key := ColonKey(items[0]);
      var tail := items[1..];
      if PyStr.StartsWith(items[0], ":") {
        assert ColonKeys(items) == {key} + ColonKeys(tail);
        WithoutWithout(kwargs, {key}, ColonKeys(tail));
        if Has(kwargs, key) {
          var url' := PyStr.ReplaceAll(url, items[0], Render(Get(kwargs, key)));
          assert Rewrite(url, items, kwargs) == Rewrite(url', tail, Del(kwargs, key));
          RewriteDropsColonKeys(url', tail, Del(kwargs, key));
        } else {
          assert Rewrite(url, items, kwargs) == Rewrite(url, tail, kwargs);
          WithoutNothing(kwargs, {key});
          RewriteDropsColonKeys(url, tail, kwargs);
        }
      } else {
        assert ColonKeys(items) == ColonKeys(tail);
        assert Rewrite(url, items, kwargs) == Rewrite(url, tail, kwargs);
        RewriteDropsColonKeys(url, tail, kwargs);
      }
    }
  }

  lemma {:induction false} RewriteAppend(url: string, xs: seq<string>, ys: seq<string>, kwargs: Dict<Value>)
    ensures Rewrite(url, xs + ys, kwargs) ==
      Rewrite(Rewrite(url, xs, kwargs).0, ys, Rewrite(url, xs, kwargs).1)
    decreases |xs|
  {
    if xs == [] {
      assert xs + ys == ys;
    } else {
      assert (xs + ys)[0] == xs[0] && (xs + ys)[1..] == xs[1..] + ys;
      var key := ColonKey(xs[0]);
      if PyStr.StartsWith(xs[0], ":") && Has(kwargs, key) {
        RewriteAppend(PyStr.ReplaceAll(url, xs[0], Render(Get(kwargs, key))), xs[1..], ys, Del(kwargs, key));
      } else {
        RewriteAppend(url, xs[1..], ys, kwargs);
      }
    }
  }

  lemma {:induction false} RewriteSkipsPlain(url: string, items: seq<string>, kwargs: Dict<Value>)
    requires forall k :: 0 <= k < |items| ==> ':' !in items[k]
    ensures Rewrite(url, items, kwargs) == (url, kwargs)
    decreases |items|
  {
    if items != [] {
      assert !PyStr.StartsWith(items[0], ":") by {
        if |items[0]| >= 1 {
          assert items[0][0] in items[0];
        }
      }
      RewriteSkipsPlain(url, items[1..], kwargs);
    }
  }

  /** A URL without `:` segments is sent as it is, after the base URL, with all the arguments. */
  lemma NoColonUrlUnchanged(url: string, kwargs: Dict<Value>)
    requires ':' !in url
    ensures Rewrite(url, PyStr.Split(url, '/'), kwargs) == (url, kwargs)
  {
    PyStr.SplitAbsent(url, '/', ':');
    RewriteSkipsPlain(url, PyStr.Split(url, '/'), kwargs);
  }

  /** The segments of a URL after `pre`: none, or those of `post` behind its leading `/`. */
  function After(post: string): seq<string> {
    if post == [] then [] else PyStr.Split(post[1..], '/')
  }

  /** `pre/:key` followed by nothing or by further `/`-separated segments splits around the `:key` segment. */
  lemma SegmentSplit(pre: string, key: string, post: string)
    requires '/' !in key && (post == [] || post[0] == '/')
    ensures PyStr.Split(pre + "/:" + key + post, '/') == PyStr.Split(pre, '/') + [":" + key] + After(post)
  {
    var seg := ":" + key;
    assert '/' !in seg;
    if post == [] {
      assert pre + "/:" + key + post == pre + ['/'] + seg;
      PyStr.SplitAppend(pre, '/', seg);
      PyStr.SplitNoSeparator(seg, '/');
      assert PyStr.Split(pre, '/') + [seg] + [] == PyStr.Split(pre, '/') + [seg];
    } else {
      var rest := post[1..];
      assert pre + "/:" + key + post == pre + ['/'] + (seg + ['/'] + rest);
      PyStr.SplitAppend(pre, '/', seg + ['/'] + rest);
      PyStr.SplitFirst(seg, '/', rest);
      PyStr.ListAssoc(PyStr.Split(pre, '/'), [seg], PyStr.Split(rest, '/'));
    }
  }

  /** The segments of a text without `:` are none of them `:` segments. */
  lemma PlainSegments(t: string)
    requires ':' !in t
    ensures forall k :: 0 <= k < |PyStr.Split(t, '/')| ==> ':' !in PyStr.Split(t, '/')[k]
  {
    PyStr.SplitAbsent(t, '/', ':');
  }

  lemma PlainAfter(post: string)
    requires ':' !in post
    ensures forall k :: 0 <= k < |After(post)| ==> ':' !in After(post)[k]
  {
    if post != [] {
      assert ':' !in post[1..] by {
        assert forall c :: c in post[1..] ==> c in post;
      }
      PlainSegments(post[1..]);
    }
  }

  /** Segments without `:` around one segment leave the rewrite to that segment. */
  lemma RewriteBetweenPlain(url: string, xs: seq<string>, seg: string, ys: seq<string>, kwargs: Dict<Value>)
    requires forall k :: 0 <= k < |xs| ==> ':' !in xs[k]
    requires forall k :: 0 <= k < |ys| ==> ':' !in ys[k]
    ensures Rewrite(url, xs + [seg] + ys, kwargs) == Rewrite(url, [seg], kwargs)
  {
    RewriteAppend(url, xs + [seg], ys, kwargs);
    RewriteAppend(url, xs, [seg], kwargs);
    RewriteSkipsPlain(url, xs, kwargs);
    var r := Rewrite(url, [seg], kwargs);
    RewriteSkipsPlain(r.0, ys, r.1);
  }

  /** In `pre/:key post` with no `:` in `pre` and `post`, only the `:key` segment can be rewritten. */
  lemma SegmentOnly(pre: string, key: string, post: string, kwargs: Dict<Value>)
    requires ':' !in pre && ':' !in key && '/' !in key && ':' !in post
    requires post == [] || post[0] == '/'
    ensures var url := pre + "/:" + key + post;
      Rewrite(url, PyStr.Split(url, '/'), kwargs) == Rewrite(url, [":" + key], kwargs) &&
      PyStr.StartsWith(":" + key, ":") && ColonKey(":" + key) == key
  {
    var url := pre + "/:" + key + post;
    SegmentSplit(pre, key, post);
    PlainSegments(pre);
    PlainAfter(post);
    RewriteBetweenPlain(url, PyStr.Split(pre, '/'), ":" + key, After(post), kwargs);
    ColonKeyOf(key);
  }

  /** The key of the segment `:key` is `key`. */
  lemma ColonKeyOf(key: string)
    requires ':' !in key
    ensures PyStr.StartsWith(":" + key, ":") && ColonKey(":" + key) == key
  {
    PyStr.LStripPrefix(":", key, {':'});
    if key != [] {
      assert key[0] in key;
    }
  }

  /** The rewrite loop over one `:` segment whose key is among the arguments. */
  lemma RewriteOneKey(url: string, seg: string, kwargs: Dict<Value>)
    requires PyStr.StartsWith(seg, ":") && Has(kwargs, ColonKey(seg))
    ensures Rewrite(url, [seg], kwargs) ==
      (PyStr.ReplaceAll(url, seg, Render(Get(kwargs, ColonKey(seg)))), Del(kwargs, ColonKey(seg)))
  {
    assert [seg][1..] == [];
  }

  /** The rewrite loop over one `:` segment whose key is not among the arguments. */
  lemma RewriteOneAbsent(url: string, seg: string, kwargs: Dict<Value>)
    requires !Has(kwargs, ColonKey(seg))
    ensures Rewrite(url, [seg], kwargs) == (url, kwargs)
  {
    assert [seg][1..] == [];
  }

  /** In `pre/:key post` with no `:` in `pre` and `post`, `:key` occurs once. */
  lemma SegmentReplace(pre: string, key: string, post: string, value: string)
    requires ':' !in pre && ':' !in post
    ensures PyStr.ReplaceAll(pre + "/:" + key + post, ":" + key, value) == pre + "/" + value + post
  {
    var seg := ":" + key;
    assert pre + "/:" + key + post == (pre + "/") + (seg + post);
    assert ':' !in pre + "/";
    PyStr.ReplaceSkips(pre + "/", seg + post, seg, value);
    ReplaceAtHead(seg, post, value);
    PyStr.NotOccurs(post, seg, ':');
    assert pre + "/" + value + post == (pre + "/") + (value + post);
  }

  /**
   * A `/:key` segment, at the end of the URL or followed by further
   * segments, becomes `/` and `str` of the argument `key`, which is no longer
   * sent; the text around it is kept.
   */
  lemma ColonSegmentSubstituted(pre: string, key: string, post: string, kwargs: Dict<Value>)
    requires ':' !in pre && ':' !in key && '/' !in key && ':' !in post
    requires post == [] || post[0] == '/'
    requires Has(kwargs, key)
    ensures Rewrite(pre + "/:" + key + post, PyStr.Split(pre + "/:" + key + post, '/'), kwargs) ==
      (pre + "/" + Render(Get(kwargs, key)) + post, Del(kwargs, key))
  {
    SegmentOnly(pre, key, post, kwargs);
    RewriteOneKey(pre + "/:" + key + post, ":" + key, kwargs);
    SegmentReplace(pre, key, post, Render(Get(kwargs, key)));
  }

  /** A `/:key` segment without an argument of that name stays in the URL, and nothing is consumed. */
  lemma ColonSegmentKept(pre: string, key: string, post: string, kwargs: Dict<Value>)
    requires ':' !in pre && ':' !in key && '/' !in key && ':' !in post
    requires post == [] || post[0] == '/'
    requires !Has(kwargs, key)
    ensures Rewrite(pre + "/:" + key + post, PyStr.Split(pre + "/:" + key + post, '/'), kwargs) ==
      (pre + "/:" + key + post, kwargs)
  {
    SegmentOnly(pre, key, post, kwargs);
    RewriteOneAbsent(pre + "/:" + key + post, ":" + key, kwargs);
  }

  /** A segment in which `:` can only come first, once: plain text, or `:` and a key without `:`. */
  predicate Shaped(seg: string) {
    ':' !in seg || (|seg| > 0 && seg[0] == ':' && ':' !in seg[1..])
  }

  /** The `:` segment `pat` is not a prefix of the different segment `seg`. */
  predicate NoClash(pat: string, seg: string) {
    PyStr.StartsWith(pat, ":") && PyStr.StartsWith(seg, pat) ==> seg == pat
  }

  /** The value substituted for the segment `seg`, if any, holds no `:`. */
  predicate PlainValue(seg: string, kwargs: Dict<Value>) {
    PyStr.StartsWith(seg, ":") && Has(kwargs, ColonKey(seg)) ==> ':' !in Render(Get(kwargs, ColonKey(seg)))
  }

  /**
   * The URL shapes on which the textual rewrite of `_execute` acts segment by
   * segment: every `:` begins its segment, no `:` segment is a prefix of a
   * different segment, and the values substituted for them hold no `:`.
   */
  predicate SegmentWise(segs: seq<string>, kwargs: Dict<Value>) {
    ShapedAll(segs, kwargs) && PrefixFree(segs)
  }

  predicate ShapedAll(segs: seq<string>, kwargs: Dict<Value>) {
    forall m :: 0 <= m < |segs| ==> Shaped(segs[m]) && PlainValue(segs[m], kwargs)
  }

  predicate PrefixFree(segs: seq<string>) {
    forall i, m :: 0 <= i < |segs| && 0 <= m < |segs| ==> NoClash(segs[i], segs[m])
  }

  /** What `_execute` puts in place of a segment: `str` of the argument for a `:key` segment whose key is one, else the segment. */
  function SegmentValue(seg: string, kwargs: Dict<Value>): string {
    if PyStr.StartsWith(seg, ":") && Has(kwargs, ColonKey(seg)) then Render(Get(kwargs, ColonKey(seg))) else seg
  }

  /** The segments, each replaced by its value. */
  function Substituted(segs: seq<string>, kwargs: Dict<Value>): (r: seq<string>)
    ensures |r| == |segs|
    ensures forall m :: 0 <= m < |segs| ==> r[m] == SegmentValue(segs[m], kwargs)
    decreases |segs|
  {
    if segs == [] then [] else [SegmentValue(segs[0], kwargs)] + Substituted(segs[1..], kwargs)
  }

  /** The segments part-way through the loop: only those whose keys are in `done` are replaced by their values. */
  function Filled(segs: seq<string>, kwargs: Dict<Value>, done: set<string>): (r: seq<string>)
    ensures |r| == |segs|
    ensures forall m :: 0 <= m < |segs| ==>
      r[m] == (if ColonKey(segs[m]) in done then SegmentValue(segs[m], kwargs) else segs[m])
    decreases |segs|
  {
    if segs == [] then []
    else [if ColonKey(segs[0]) in done then SegmentValue(segs[0], kwargs) else segs[0]] + Filled(segs[1..], kwargs, done)
  }

  /** The keys of the `:` segments among the first `j` segments. */
  function Consumed(segs: seq<string>, j: nat): set<string>
    requires j <= |segs|
  {
    if j == 0 then {}
    else Consumed(segs, j - 1) + (if PyStr.StartsWith(segs[j - 1], ":") then {ColonKey(segs[j - 1])} else {})
  }

  lemma {:induction false} ConsumedHas(segs: seq<string>, j: nat)
    requires j <= |segs|
    ensures forall m :: 0 <= m < j && PyStr.StartsWith(segs[m], ":") ==> ColonKey(segs[m]) in Consumed(segs, j)
  {
    if j > 0 {
      ConsumedHas(segs, j - 1);
    }
  }

  /** `segs` with every segment equal to `pat` replaced by `sub`. */
  function Swap(segs: seq<string>, pat: string, sub: string): (r: seq<string>)
    ensures |r| == |segs|
    ensures forall m :: 0 <= m < |segs| ==> r[m] == if segs[m] == pat then sub else segs[m]
    decreases |segs|
  {
    if segs == [] then [] else [if segs[0] == pat then sub else segs[0]] + Swap(segs[1..], pat, sub)
  }

  /** A shaped `:` segment is `:` followed by its key. */
  lemma ShapedKey(seg: string)
    requires Shaped(seg) && PyStr.StartsWith(seg, ":")
    ensures seg == ":" + ColonKey(seg)
  {
    assert seg == ":" + seg[1..];
    ColonKeyOf(seg[1..]);
  }

  /**
   * The replacement of a `:` segment `pat`, at a segment boundary: the
   * segment `seg` is replaced whole if it is `pat` and kept otherwise.
   */
  lemma HeadReplace(seg: string, rest: string, pat: string, sub: string)
    requires |pat| > 0 && pat[0] == ':' && '/' !in pat
    requires Shaped(seg) && (seg == pat || !PyStr.StartsWith(seg, pat))
    requires rest == [] || rest[0] == '/'
    ensures PyStr.ReplaceAll(seg + rest, pat, sub) == (if seg == pat then sub else seg) + PyStr.ReplaceAll(rest, pat, sub)
  {
    if seg == pat {
      ReplaceAtHead(pat, rest, sub);
    } else if ':' !in seg {
      PyStr.ReplaceSkips(seg, rest, pat, sub);
    } else {
      var s := seg + rest;
      if |s| < |pat| {
        assert PyStr.ReplaceAll(rest, pat, sub) == rest;
      } else {
        assert s[..|pat|] != pat by {
          if |pat| <= |seg| {
            assert s[..|pat|] == seg[..|pat|];
          } else {
            assert s[|seg|] == '/';
            assert pat[|seg|] in pat;
          }
        }
        assert s[1..] == seg[1..] + rest;
        PyStr.ReplaceSkips(seg[1..], rest, pat, sub);
        assert [seg[0]] + seg[1..] == seg;
        UriTemplate.StringAssoc([seg[0]], seg[1..], PyStr.ReplaceAll(rest, pat, sub));
      }
    }
  }

  /** Replacing a `:` segment in the `/`-join of segments none of which it is a proper prefix of. */
  lemma {:induction false} ReplaceJoin(segs: seq<string>, pat: string, sub: string)
    requires |segs| >= 1 && |pat| > 0 && pat[0] == ':' && '/' !in pat
    requires forall m :: 0 <= m < |segs| ==> Shaped(segs[m]) && (segs[m] == pat || !PyStr.StartsWith(segs[m], pat))
    ensures PyStr.ReplaceAll(PyStr.Join(segs, "/"), pat, sub) == PyStr.Join(Swap(segs, pat, sub), "/")
    decreases |segs|
  {
    var h := if segs[0] == pat then sub else segs[0];
    var sw := Swap(segs, pat, sub);
    if |segs| == 1 {
      HeadReplace(segs[0], [], pat, sub);
      assert segs[0] + [] == segs[0];
      assert h + [] == h;
    } else {
      var tail := segs[1..];
      var j := PyStr.Join(tail, "/");
      UriTemplate.StringAssoc(segs[0], "/", j);
      HeadReplace(segs[0], "/" + j, pat, sub);
      PyStr.ReplaceSkips("/", j, pat, sub);
      ReplaceJoin(tail, pat, sub);
      assert sw[1..] == Swap(tail, pat, sub);
      UriTemplate.StringAssoc(h, "/", PyStr.Join(sw[1..], "/"));
    }
  }

  /**
   * In a segment-wise URL part-way through the loop, replacing the `:` segment
   * `segs[j]` by text replaces exactly the segments equal to it.
   */
  lemma FilledReplace(segs: seq<string>, kwargs: Dict<Value>, done: set<string>, j: nat, sub: string)
    requires SegmentWise(segs, kwargs) && j < |segs| && PyStr.StartsWith(segs[j], ":") && '/' !in segs[j]
    ensures var cur := Filled(segs, kwargs, done);
      PyStr.ReplaceAll(PyStr.Join(cur, "/"), segs[j], sub) == PyStr.Join(Swap(cur, segs[j], sub), "/")
  {
    var cur := Filled(segs, kwargs, done);
    assert segs[j][0] == segs[j][..1][0] == ':';
    forall m | 0 <= m < |cur|
      ensures Shaped(cur[m]) && (cur[m] == segs[j] || !PyStr.StartsWith(cur[m], segs[j]))
    {
      CellUnambiguous(cur[m], segs[m], segs[j]);
    }
    ReplaceJoin(cur, segs[j], sub);
  }

  /** A cell of the part-way segments is its shaped segment or a value without `:`, so the `:` segment `pat` is no proper prefix of it. */
  lemma CellUnambiguous(c: string, seg: string, pat: string)
    requires |pat| > 0 && pat[0] == ':'
    requires (c == seg && Shaped(seg) && (seg == pat || !PyStr.StartsWith(seg, pat))) || ':' !in c
    ensures Shaped(c) && (c == pat || !PyStr.StartsWith(c, pat))
  {
  }

  /** Substituting the key of the `:` segment `segs[j]` turns the part-way segments for `done` into those for one more key. */
  lemma SwapFilled(segs: seq<string>, kwargs: Dict<Value>, done: set<string>, j: nat)
    requires ShapedAll(segs, kwargs) && j < |segs| && PyStr.StartsWith(segs[j], ":")
    requires Has(kwargs, ColonKey(segs[j])) && ColonKey(segs[j]) !in done
    ensures var key := ColonKey(segs[j]);
      Swap(Filled(segs, kwargs, done), segs[j], Render(Get(kwargs, key))) == Filled(segs, kwargs, done + {key})
  {
    var key := ColonKey(segs[j]);
    var cur := Filled(segs, kwargs, done);
    var sw := Swap(cur, segs[j], Render(Get(kwargs, key)));
    var next := Filled(segs, kwargs, done + {key});
    forall m | 0 <= m < |segs|
      ensures sw[m] == next[m]
    {
      SwapCell(segs[m], segs[j], kwargs, done);
    }
  }

  /** One cell of `SwapFilled`: the segment `seg` before and after the key of `pat` joins `done`. */
  lemma SwapCell(seg: string, pat: string, kwargs: Dict<Value>, done: set<string>)
    requires Shaped(seg) && Shaped(pat) && PyStr.StartsWith(pat, ":")
    requires Has(kwargs, ColonKey(pat)) && ColonKey(pat) !in done
    requires PlainValue(seg, kwargs)
    ensures var c := if ColonKey(seg) in done then SegmentValue(seg, kwargs) else seg;
      (if c == pat then Render(Get(kwargs, ColonKey(pat))) else c) ==
      (if ColonKey(seg) in done + {ColonKey(pat)} then SegmentValue(seg, kwargs) else seg)
  {
    ShapedKey(pat);
    assert pat[0] == pat[..1][0];
    assert pat[0] in pat;
    if PyStr.StartsWith(seg, ":") && seg != pat {
      ShapedKey(seg);
    }
  }

  /** A key that is not an argument changes nothing when it joins `done`. */
  lemma FilledAbsent(segs: seq<string>, kwargs: Dict<Value>, done: set<string>, key: string)
    requires !Has(kwargs, key)
    ensures Filled(segs, kwargs, done + {key}) == Filled(segs, kwargs, done)
  {
    var a, b := Filled(segs, kwargs, done + {key}), Filled(segs, kwargs, done);
    forall m | 0 <= m < |segs|
      ensures a[m] == b[m]
    {
    }
  }

  /** Once every segment's key is done, the part-way segments are the substituted ones. */
  lemma FilledAll(segs: seq<string>, kwargs: Dict<Value>)
    ensures Filled(segs, kwargs, Consumed(segs, |segs|)) == Substituted(segs, kwargs)
  {
    var a, b := Filled(segs, kwargs, Consumed(segs, |segs|)), Substituted(segs, kwargs);
    ConsumedHas(segs, |segs|);
    forall m | 0 <= m < |segs|
      ensures a[m] == b[m]
    {
    }
  }

  /** The URL after the loop has gone through the first `j` segments. */
  function UrlAt(segs: seq<string>, kwargs: Dict<Value>, j: nat): string
    requires j <= |segs|
  {
    PyStr.Join(Filled(segs, kwargs, Consumed(segs, j)), "/")
  }

  /** The arguments left after the loop has gone through the first `j` segments. */
  function ArgsAt(segs: seq<string>, kwargs: Dict<Value>, j: nat): Dict<Value>
    requires j <= |segs|
  {
    Without(kwargs, Consumed(segs, j))
  }

  /** A round of the loop at a `:` segment whose key is still an argument. */
  lemma StepHit(segs: seq<string>, kwargs: Dict<Value>, j: nat)
    requires SegmentWise(segs, kwargs) && j < |segs| && '/' !in segs[j]
    requires PyStr.StartsWith(segs[j], ":") && Has(ArgsAt(segs, kwargs, j), ColonKey(segs[j]))
    ensures var kw, key := ArgsAt(segs, kwargs, j), ColonKey(segs[j]);
      PyStr.ReplaceAll(UrlAt(segs, kwargs, j), segs[j], Render(Get(kw, key))) == UrlAt(segs, kwargs, j + 1) &&
      Del(kw, key) == ArgsAt(segs, kwargs, j + 1)
  {
    var done, key := Consumed(segs, j), ColonKey(segs[j]);
    assert Consumed(segs, j + 1) == done + {key};
    WithoutWithout(kwargs, done, {key});
    FilledReplace(segs, kwargs, done, j, Render(Get(kwargs, key)));
    SwapFilled(segs, kwargs, done, j);
  }

  /** A round of the loop at any other segment changes nothing. */
  lemma StepMiss(segs: seq<string>, kwargs: Dict<Value>, j: nat)
    requires j < |segs|
    requires !(PyStr.StartsWith(segs[j], ":") && Has(ArgsAt(segs, kwargs, j), ColonKey(segs[j])))
    ensures UrlAt(segs, kwargs, j + 1) == UrlAt(segs, kwargs, j) && ArgsAt(segs, kwargs, j + 1) == ArgsAt(segs, kwargs, j)
  {
    var done, key := Consumed(segs, j), ColonKey(segs[j]);
    if PyStr.StartsWith(segs[j], ":") && key !in done {
      assert Consumed(segs, j + 1) == done + {key};
      WithoutWithout(kwargs, done, {key});
      WithoutNothing(Without(kwargs, done), {key});
      FilledAbsent(segs, kwargs, done, key);
    } else {
      assert Consumed(segs, j + 1) == done;
    }
  }

  lemma RewriteFromStep(segs: seq<string>, kwargs: Dict<Value>, j: nat)
    requires SegmentWise(segs, kwargs) && j < |segs| && '/' !in segs[j]
    ensures RoundAgrees(segs, kwargs, j)
  {
    RewriteStep(UrlAt(segs, kwargs, j), segs, j, ArgsAt(segs, kwargs, j));
    if PyStr.StartsWith(segs[j], ":") && Has(ArgsAt(segs, kwargs, j), ColonKey(segs[j])) {
      StepHit(segs, kwargs, j);
    } else {
      StepMiss(segs, kwargs, j);
    }
  }

  /** Round `k` of the loop takes the state after `k` segments to the state after `k + 1`. */
  predicate RoundAgrees(segs: seq<string>, kwargs: Dict<Value>, k: nat)
    requires k < |segs|
  {
    Rewrite(UrlAt(segs, kwargs, k), segs[k..], ArgsAt(segs, kwargs, k)) ==
    Rewrite(UrlAt(segs, kwargs, k + 1), segs[k + 1..], ArgsAt(segs, kwargs, k + 1))
  }

  lemma {:induction false} RewriteFrom(segs: seq<string>, kwargs: Dict<Value>, j: nat)
    requires j <= |segs|
    requires forall k :: j <= k < |segs| ==> RoundAgrees(segs, kwargs, k)
    ensures Rewrite(UrlAt(segs, kwargs, j), segs[j..], ArgsAt(segs, kwargs, j)).0 == PyStr.Join(Substituted(segs, kwargs), "/")
    decreases |segs| - j
  {
    if j == |segs| {
      RewriteAtEnd(segs, kwargs);
    } else {
      assert RoundAgrees(segs, kwargs, j);
      RewriteFrom(segs, kwargs, j + 1);
    }
  }

  lemma RewriteAtEnd(segs: seq<string>, kwargs: Dict<Value>)
    ensures Rewrite(UrlAt(segs, kwargs, |segs|), segs[|segs|..], ArgsAt(segs, kwargs, |segs|)).0 ==
      PyStr.Join(Substituted(segs, kwargs), "/")
  {
    FilledAll(segs, kwargs);
    assert segs[|segs|..] == [];
  }

  /**
   * `_execute` on a URL whose `:` segments are `:key` with no further `:`,
   * none the prefix of a different segment, and whose substituted values hold
   * no `:`: the URL sent is its segments joined by `/` again, each `:key`
   * segment whose key is an argument replaced by `str` of that argument and
   * every other segment kept.
   */
  lemma SegmentsSubstituted(url: string, kwargs: Dict<Value>)
    requires SegmentWise(PyStr.Split(url, '/'), kwargs)
    ensures Rewrite(url, PyStr.Split(url, '/'), kwargs).0 == PyStr.Join(Substituted(PyStr.Split(url, '/'), kwargs), "/")
  {
    var segs := PyStr.Split(url, '/');
    assert Consumed(segs, 0) == {};
    assert Filled(segs, kwargs, {}) == segs;
    assert UrlAt(segs, kwargs, 0) == url;
    WithoutNothing(kwargs, {});
    assert segs[0..] == segs;
    forall k | 0 <= k < |segs|
      ensures RoundAgrees(segs, kwargs, k)
    {
      RewriteFromStep(segs, kwargs, k);
    }
    RewriteFrom(segs, kwargs, 0);
  }

  /** Replacing at the head of the text: `pat` is swapped for `sub` and the scan resumes after it. */
  lemma ReplaceAtHead(pat: string, rest: string, sub: string)
    requires pat != []
    ensures PyStr.ReplaceAll(pat + rest, pat, sub) == sub + PyStr.ReplaceAll(rest, pat, sub)
  {
    assert (pat + rest)[..|pat|] == pat;
    assert (pat + rest)[|pat|..] == rest;
  }

  /** `/p/ps`.replace(p, r) with `p` starting with `:` and no `:` in `s`: both occurrences are replaced. */
  lemma ReplaceRepeated(pat: string, suffix: string, sub: string)
    requires pat != [] && pat[0] == ':' && ':' !in suffix
    ensures PyStr.ReplaceAll("/" + pat + "/" + pat + suffix, pat, sub) == "/" + sub + "/" + sub + suffix
  {
    var t1 := pat + suffix;
    var t2 := "/" + t1;
    var t3 := pat + t2;
    var r1 := sub + suffix;
    assert PyStr.ReplaceAll(t1, pat, sub) == r1 by {
      ReplaceAtHead(pat, suffix, sub);
      PyStr.NotOccurs(suffix, pat, ':');
    }
    assert PyStr.ReplaceAll(t2, pat, sub) == "/" + r1 by {
      PyStr.ReplaceSkips("/", t1, pat, sub);
    }
    assert PyStr.ReplaceAll(t3, pat, sub) == sub + ("/" + r1) by {
      ReplaceAtHead(pat, t2, sub);
    }
    assert PyStr.ReplaceAll("/" + t3, pat, sub) == "/" + (sub + ("/" + r1)) by {
      PyStr.ReplaceSkips("/", t3, pat, sub);
    }
    Regroup("/", pat, "/", pat, suffix);
    Regroup("/", sub, "/", sub, suffix);
  }

  lemma Regroup(a: string, b: string, c: string, d: string, e: string)
    ensures a + b + c + d + e == a + (b + (c + (d + e)))
  {
  }

  lemma CollisionShape(k: string, suffix: string)
    ensures "/:" + k + "/:" + k + suffix == "" + ['/'] + ((":" + k) + ['/'] + (":" + (k + suffix)))
    ensures "/:" + k + "/:" + k + suffix == "/" + (":" + k) + "/" + (":" + k) + suffix
  {
  }

  lemma CollisionSplit(k: string, suffix: string)
    requires '/' !in k && '/' !in suffix
    ensures PyStr.Split("/:" + k + "/:" + k + suffix, '/') == ["", ":" + k, ":" + (k + suffix)]
  {
    var s1, s2 := ":" + k, ":" + (k + suffix);
    CollisionShape(k, suffix);
    PyStr.SplitAppend("", '/', s1 + ['/'] + s2);
    PyStr.SplitNoSeparator("", '/');
    assert '/' !in s1 && '/' !in s2;
    PyStr.SplitFirst(s1, '/', s2);
    PyStr.SplitNoSeparator(s2, '/');
  }

  lemma CollisionKeys(k: string, suffix: string)
    requires ':' !in k && ':' !in suffix
    ensures ColonKey(":" + k) == k && ColonKey(":" + (k + suffix)) == k + suffix
  {
    ColonKeyOf(k);
    assert ':' !in k + suffix;
    ColonKeyOf(k + suffix);
  }

  lemma CollisionDeletes(k: string, suffix: string, a: Value, b: Value)
    requires suffix != []
    ensures Del([(k, a), (k + suffix, b)], k) == [(k + suffix, b)]
    ensures Del([(k + suffix, b)], k + suffix) == []
    ensures Has([(k, a), (k + suffix, b)], k) && Get([(k, a), (k + suffix, b)], k) == a
    ensures Has([(k + suffix, b)], k + suffix) && Get([(k + suffix, b)], k + suffix) == b
  {
    var ks := k + suffix;
    assert k != ks by {
      assert |ks| > |k|;
    }
    var kw: Dict<Value> := [(k, a), (ks, b)];
    var kw1: Dict<Value> := [(ks, b)];
    assert kw[1..] == kw1;
    assert Without(kw1, {k}) == [(ks, b)] + Without(kw1[1..], {k});
    assert Without(kw1, {ks}) == Without(kw1[1..], {ks});
    assert Has(kw, k) && Get(kw, k) == a;
    assert Has(kw1, ks) && Get(kw1, ks) == b;
  }

  /**
   * Segment substitution is by text, not by segment: in `/:k/:ks`, replacing
   * `:k` also rewrites the start of `:ks`, so the argument `ks` is consumed
   * without ever appearing in the URL.
   */
  lemma PrefixCollision(k: string, suffix: string, a: Value, b: Value)
    requires k != [] && suffix != []
    requires ':' !in k && '/' !in k && ':' !in suffix && '/' !in suffix && ':' !in Render(a)
    ensures var url := "/:" + k + "/:" + k + suffix;
      Rewrite(url, PyStr.Split(url, '/'), [(k, a), (k + suffix, b)]) ==
      ("/" + Render(a) + "/" + Render(a) + suffix, [])
  {
    CollisionSplit(k, suffix);
    CollisionKeys(k, suffix);
    CollisionDeletes(k, suffix, a, b);
    CollisionFirst(k, suffix, Render(a));
    CollisionSecond(k, suffix, Render(a), Render(b));
    RewriteTwoKeys("/:" + k + "/:" + k + suffix, ":" + k, ":" + (k + suffix), [(k, a), (k + suffix, b)],
      "/" + Render(a) + "/" + Render(a) + suffix);
  }

  lemma CollisionFirst(k: string, suffix: string, r: string)
    requires k != [] && ':' !in suffix
    ensures PyStr.ReplaceAll("/:" + k + "/:" + k + suffix, ":" + k, r) == "/" + r + "/" + r + suffix
  {
    CollisionShape(k, suffix);
    ReplaceRepeated(":" + k, suffix, r);
  }

  lemma CollisionSecond(k: string, suffix: string, r: string, r': string)
    requires ':' !in r && ':' !in suffix
    ensures PyStr.ReplaceAll("/" + r + "/" + r + suffix, ":" + (k + suffix), r') == "/" + r + "/" + r + suffix
  {
    var url1 := "/" + r + "/" + r + suffix;
    assert ':' !in url1 by {
      Regroup("/", r, "/", r, suffix);
    }
    PyStr.NotOccurs(url1, ":" + (k + suffix), ':');
  }

  /**
   * The rewrite loop over `["", s1, s2]` when both segments are keys of the
   * arguments, `s1`'s replacement gives `url1` and `s2` no longer occurs in it.
   */
  lemma RewriteTwoKeys(url: string, s1: string, s2: string, kw: Dict<Value>, url1: string)
    requires PyStr.StartsWith(s1, ":") && PyStr.StartsWith(s2, ":")
    requires Has(kw, ColonKey(s1)) && Has(Del(kw, ColonKey(s1)), ColonKey(s2))
    requires PyStr.ReplaceAll(url, s1, Render(Get(kw, ColonKey(s1)))) == url1
    requires PyStr.ReplaceAll(url1, s2, Render(Get(Del(kw, ColonKey(s1)), ColonKey(s2)))) == url1
    ensures Rewrite(url, ["", s1, s2], kw) == (url1, Del(Del(kw, ColonKey(s1)), ColonKey(s2)))
  {
    var kw1 := Del(kw, ColonKey(s1));
    var kw2 := Del(kw1, ColonKey(s2));
    assert Rewrite(url, ["", s1, s2], kw) == Rewrite(url, [s1, s2], kw) by {
      assert !PyStr.StartsWith("", ":");
      assert ["", s1, s2][1..] == [s1, s2];
    }
    assert Rewrite(url, [s1, s2], kw) == Rewrite(url1, [s2], kw1) by {
      assert [s1, s2][1..] == [s2];
    }
    assert Rewrite(url1, [s2], kw1) == Rewrite(url1, [], kw2) by {
      assert [s2][1..] == [];
    }
  }

  datatype InvokeError =
    | PositionalsNotSupported(args: seq<Value>)
    | TooManyPositionals
    | DuplicatedPositional(name: string)
    | MissingArgument(name: string)
    | BadArgument(checkError: TypeCheck.CheckError)
    | BadTemplate(formatError: UriTemplate.FormatError)
    | BadVerb(execError: ExecError)
    | MultipleValues(name: string)

  /** The named parameters of `__call__` and `invoke` besides `*args`. */
  const InvokeParams: set<string> := {"self"}
  /** The named parameters of `TypeChecker.__call__`. */
  const CheckerParams: set<string> := {"self", "method"}
  /** The named parameters of `_execute`. */
  const ExecuteParams: set<string> := {"self", "http_method", "url"}

  /**
   * The first keyword argument, in call order, named like one of the callee's
   * own parameters, which the call fills already: Python then raises
   * `TypeError` ("got multiple values for argument").
   */
  function Clash(kwargs: Dict<Value>, taken: set<string>): (r: Option<string>)
    ensures r.None? <==> forall k :: k in taken ==> !Has(kwargs, k)
    ensures r.Some? ==> r.value in taken && Has(kwargs, r.value)
    decreases |kwargs|
  {
    if kwargs == [] then None
    else if kwargs[0].0 in taken then Some(kwargs[0].0)
    else Clash(kwargs[1..], taken)
  }

  /** The `zip(self.positionals, args)` loop: each name gets its value, unless it is a keyword already. */
  function BindPositionals(names: seq<string>, args: seq<Value>, kwargs: Dict<Value>): (r: Result<Dict<Value>, InvokeError>)
    requires |args| <= |names|
    ensures r.Err? ==> r.error.DuplicatedPositional? && exists i :: 0 <= i < |args| && names[i] == r.error.name
    decreases |args|
  {
    if args == [] then Ok(kwargs)
    else if Has(kwargs, names[0]) then Err(DuplicatedPositional(names[0]))
    else
      var r := BindPositionals(names[1..], args[1..], Put(kwargs, names[0], args[0]));
      assert r.Err? ==> exists i :: 0 <= i < |args| && names[i] == r.error.name by {
        if r.Err? {
          var i :| 0 <= i < |args| - 1 && names[1..][i] == r.error.name;
          assert names[i + 1] == r.error.name;
        }
      }
      r
  }

  /**
   * The `ps` loop: each name moves from the arguments into `ps`, and a name
   * that is not among the arguments (any more) raises.
   */
  function ExtractPath(names: seq<string>, ps: Dict<Value>, kwargs: Dict<Value>): (r: Result<(Dict<Value>, Dict<Value>), InvokeError>)
    ensures r.Err? ==> r.error.MissingArgument? && r.error.name in names
    decreases |names|
  {
    if names == [] then Ok((ps, kwargs))
    else if !Has(kwargs, names[0]) then Err(MissingArgument(names[0]))
    else ExtractPath(names[1..], Put(ps, names[0], Get(kwargs, names[0])), Del(kwargs, names[0]))
  }

  /** One round of the extraction loop. */
  lemma ExtractPathStep(names: seq<string>, j: nat, ps: Dict<Value>, kwargs: Dict<Value>)
    requires j < |names| && Has(kwargs, names[j])
    ensures ExtractPath(names[j..], ps, kwargs) ==
      ExtractPath(names[j + 1..], Put(ps, names[j], Get(kwargs, names[j])), Del(kwargs, names[j]))
  {
    assert names[j..][0] == names[j] && names[j..][1..] == names[j + 1..];
  }

  /** One round of the binding loop. */
  lemma BindStep(names: seq<string>, args: seq<Value>, i: nat, kwargs: Dict<Value>)
    requires i < |args| <= |names| && !Has(kwargs, names[i])
    ensures BindPositionals(names[i..], args[i..], kwargs) ==
      BindPositionals(names[i + 1..], args[i + 1..], Put(kwargs, names[i], args[i]))
  {
    assert names[i..][0] == names[i] && names[i..][1..] == names[i + 1..];
    assert args[i..][0] == args[i] && args[i..][1..] == args[i + 1..];
  }

  /** The first loop of `invoke`: each positional value goes under its name, unless that name is already bound. */
  method Bind(names: seq<string>, args: seq<Value>, kwargs: Dict<Value>) returns (r: Result<Dict<Value>, InvokeError>)
    requires |args| <= |names|
    ensures r == BindPositionals(names, args, kwargs)
  {
    var kw := kwargs;
    var i := 0;
    while i < |args|
      invariant 0 <= i <= |args|
      invariant BindPositionals(names, args, kwargs) == BindPositionals(names[i..], args[i..], kw)
    {
      var k := names[i];
      if Has(kw, k) {
        assert names[i..][0] == k && args[i..] != [];
        return Err(DuplicatedPositional(k));
      }
      BindStep(names, args, i, kw);
      kw := Put(kw, k, args[i]);
      i := i + 1;
    }
    assert args[i..] == [];
    return Ok(kw);
  }

  /** The second loop of `invoke`: each positional name is moved from the arguments into the path parameters. */
  method Extract(names: seq<string>, kwargs: Dict<Value>) returns (r: Result<(Dict<Value>, Dict<Value>), InvokeError>)
    ensures r == ExtractPath(names, [], kwargs)
  {
    var ps: Dict<Value> := [];
    var kw := kwargs;
    var j := 0;
    while j < |names|
      invariant 0 <= j <= |names|
      invariant ExtractPath(names, [], kwargs) == ExtractPath(names[j..], ps, kw)
    {
      var p := names[j];
      if !Has(kw, p) {
        assert names[j..][0] == p;
        return Err(MissingArgument(p));
      }
      ExtractPathStep(names, j, ps, kw);
      ps := Put(ps, p, Get(kw, p));
      kw := Del(kw, p);
      j := j + 1;
    }
    assert names[j..] == [];
    return Ok((ps, kw));
  }

  /**
   * `invoke` up to the type check: the path parameters and the keyword
   * arguments handed to the type check, or the error raised on the way. A
   * keyword `self` is refused when `invoke` is called, and one that the type
   * check's own parameters take when the type check is called.
   */
  function Marshal(names: seq<string>, args: seq<Value>, kwargs: Dict<Value>): (r: Result<(Dict<Value>, Dict<Value>), InvokeError>)
    ensures r.Ok? ==> Clash(kwargs, InvokeParams).None? && Clash(r.value.1, CheckerParams).None?
  {
    if Clash(kwargs, InvokeParams).Some? then Err(MultipleValues(Clash(kwargs, InvokeParams).value))
    else if args != [] && names == [] then Err(PositionalsNotSupported(args))
    else if |args| > |names| then Err(TooManyPositionals)
    else
      var bound := BindPositionals(names, args, kwargs);
      if bound.Err? then Err(bound.error)
      else
        var split := ExtractPath(names, [], bound.value);
        if split.Err? then Err(split.error)
        else if Clash(split.value.1, CheckerParams).Some? then Err(MultipleValues(Clash(split.value.1, CheckerParams).value))
        else split
  }

  /**
   * `invoke`, from the arguments to the request or the error raised. The
   * template is filled before `_execute` is called, so a keyword that
   * `_execute`'s own parameters take raises after a template error.
   */
  function InvokeSpec(d: Descriptor, names: seq<string>, uriFormat: string, args: seq<Value>, kwargs: Dict<Value>,
                      apiUrl: string, auth: Option<OAuth.OAuth1>): (r: Result<Request, InvokeError>)
    ensures r.Ok? ==> r.value.verb == d.httpMethod && Classify(d.httpMethod) == Some(r.value.transport)
    ensures r.Ok? ==> r.value.auth == auth && PyStr.StartsWith(r.value.url, apiUrl)
    ensures r.Ok? ==> Marshal(names, args, kwargs).Ok? && Clash(Marshal(names, args, kwargs).value.1, ExecuteParams).None?
  {
    var m := Marshal(names, args, kwargs);
    if m.Err? then Err(m.error)
    else
      var (ps, rest) := m.value;
      var check := TypeCheck.CheckArgs(d.params, rest);
      if check.Some? then Err(BadArgument(check.value))
      else
        var url := UriTemplate.Format(uriFormat, ps);
        if url.Err? then Err(BadTemplate(url.error))
        else if Clash(rest, ExecuteParams).Some? then Err(MultipleValues(Clash(rest, ExecuteParams).value))
        else
          var sent := ExecuteSpec(apiUrl, d.httpMethod, url.value, rest, auth);
          if sent.Err? then Err(BadVerb(sent.error)) else Ok(sent.value)
  }

  /** The type names the type check of `invoke` looks up: none when `invoke` raises before it. */
  function TypesLookedUp(params: map<string, string>, m: Result<(Dict<Value>, Dict<Value>), InvokeError>): set<string> {
    if m.Ok? then TypeCheck.Consulted(params, m.value.1) else {}
  }

  /** No name occurs twice among the first `n`. */
  predicate DistinctPrefix(names: seq<string>, n: nat)
    requires n <= |names|
  {
    forall i, j :: 0 <= i < j < n ==> names[i] != names[j]
  }

  /** None of the first `n` names is already among the arguments. */
  predicate Unbound(names: seq<string>, n: nat, kwargs: Dict<Value>)
    requires n <= |names|
  {
    forall i :: 0 <= i < n ==> !Has(kwargs, names[i])
  }

  lemma BindConditionStep(names: seq<string>, n: nat, kwargs: Dict<Value>, v: Value)
    requires 1 <= n <= |names| && !Has(kwargs, names[0])
    ensures (DistinctPrefix(names, n) && Unbound(names, n, kwargs)) <==>
      (DistinctPrefix(names[1..], n - 1) && Unbound(names[1..], n - 1, Put(kwargs, names[0], v)))
  {
    var tail, kw' := names[1..], Put(kwargs, names[0], v);
    assert forall i :: 0 <= i < n - 1 ==> tail[i] == names[i + 1];
    if DistinctPrefix(names, n) && Unbound(names, n, kwargs) {
      forall i | 0 <= i < n - 1 ensures !Has(kw', tail[i]) {
        assert names[0] != names[i + 1];
      }
    }
    if DistinctPrefix(tail, n - 1) && Unbound(tail, n - 1, kw') {
      forall i, j | 0 <= i < j < n ensures names[i] != names[j] {
        if i == 0 {
          assert Has(kw', names[0]);
          assert !Has(kw', tail[j - 1]);
        } else {
          assert tail[i - 1] != tail[j - 1];
        }
      }
      forall i | 0 <= i < n ensures !Has(kwargs, names[i]) {
        if i > 0 {
          assert !Has(kw', tail[i - 1]);
        }
      }
    }
  }

  /** Binding succeeds exactly when the names bound positionally are distinct and none is also a keyword. */
  lemma {:induction false} BindPositionalsSucceeds(names: seq<string>, args: seq<Value>, kwargs: Dict<Value>)
    requires |args| <= |names|
    ensures BindPositionals(names, args, kwargs).Ok? <==> DistinctPrefix(names, |args|) && Unbound(names, |args|, kwargs)
    decreases |args|
  {
    if args != [] && !Has(kwargs, names[0]) {
      BindPositionalsSucceeds(names[1..], args[1..], Put(kwargs, names[0], args[0]));
      BindConditionStep(names, |args|, kwargs, args[0]);
    }
  }

  /** After a successful binding every keyword argument keeps its value. */
  lemma {:induction false} BindKeepsKeywords(names: seq<string>, args: seq<Value>, kwargs: Dict<Value>)
    requires |args| <= |names| && BindPositionals(names, args, kwargs).Ok?
    ensures var bound := BindPositionals(names, args, kwargs).value;
      forall k :: Has(kwargs, k) ==> Has(bound, k) && Get(bound, k) == Get(kwargs, k)
    decreases |args|
  {
    if args != [] {
      BindKeepsKeywords(names[1..], args[1..], Put(kwargs, names[0], args[0]));
    }
  }

  /** After a successful binding each positionally bound name holds its argument. */
  lemma {:induction false} BindHoldsPositionals(names: seq<string>, args: seq<Value>, kwargs: Dict<Value>)
    requires |args| <= |names| && BindPositionals(names, args, kwargs).Ok?
    ensures var bound := BindPositionals(names, args, kwargs).value;
      forall i :: 0 <= i < |args| ==> Has(bound, names[i]) && Get(bound, names[i]) == args[i]
    decreases |args|
  {
    if args != [] {
      var tail, kw' := names[1..], Put(kwargs, names[0], args[0]);
      var bound := BindPositionals(names, args, kwargs).value;
      assert bound == BindPositionals(tail, args[1..], kw').value;
      BindHoldsPositionals(tail, args[1..], kw');
      BindKeepsKeywords(tail, args[1..], kw');
      forall i | 0 <= i < |args| ensures Has(bound, names[i]) && Get(bound, names[i]) == args[i] {
        if i == 0 {
          assert Has(kw', names[0]) && Get(kw', names[0]) == args[0];
        } else {
          assert names[i] == tail[i - 1] && args[i] == args[1..][i - 1];
        }
      }
    }
  }

  /** A successful binding adds no name other than the positionally bound ones. */
  lemma {:induction false} BindAddsOnlyPositionals(names: seq<string>, args: seq<Value>, kwargs: Dict<Value>)
    requires |args| <= |names| && BindPositionals(names, args, kwargs).Ok?
    ensures var bound := BindPositionals(names, args, kwargs).value;
      forall k :: Has(bound, k) ==> Has(kwargs, k) || exists i :: 0 <= i < |args| && names[i] == k
    decreases |args|
  {
    if args != [] {
      var n0, tail, kw' := names[0], names[1..], Put(kwargs, names[0], args[0]);
      var bound := BindPositionals(names, args, kwargs).value;
      assert bound == BindPositionals(tail, args[1..], kw').value;
      BindAddsOnlyPositionals(tail, args[1..], kw');
      forall k | Has(bound, k) ensures Has(kwargs, k) || exists i :: 0 <= i < |args| && names[i] == k {
        if k == n0 {
          assert names[0] == k;
        } else if !Has(kwargs, k) {
          var j :| 0 <= j < |args| - 1 && tail[j] == k;
          assert names[j + 1] == k;
        }
      }
    }
  }

  /** Every one of `names` is among the arguments. */
  predicate AllPresent(names: seq<string>, kwargs: Dict<Value>) {
    forall i :: 0 <= i < |names| ==> Has(kwargs, names[i])
  }

  lemma ExtractConditionStep(names: seq<string>, kwargs: Dict<Value>)
    requires names != [] && Has(kwargs, names[0])
    ensures (DistinctPrefix(names, |names|) && AllPresent(names, kwargs)) <==>
      (DistinctPrefix(names[1..], |names| - 1) && AllPresent(names[1..], Del(kwargs, names[0])))
  {
    var n0, tail, kw' := names[0], names[1..], Del(kwargs, names[0]);
    assert forall i :: 0 <= i < |tail| ==> tail[i] == names[i + 1];
    if DistinctPrefix(names, |names|) && AllPresent(names, kwargs) {
      forall i | 0 <= i < |tail| ensures Has(kw', tail[i]) {
        assert names[0] != names[i + 1];
      }
    }
    if DistinctPrefix(tail, |tail|) && AllPresent(tail, kw') {
      forall i, j | 0 <= i < j < |names| ensures names[i] != names[j] {
        if i == 0 {
          assert Has(kw', tail[j - 1]);
        } else {
          assert tail[i - 1] != tail[j - 1];
        }
      }
      forall i | 0 <= i < |names| ensures Has(kwargs, names[i]) {
        if i > 0 {
          assert Has(kw', tail[i - 1]);
        }
      }
    }
  }

  /** Moving the path parameters out succeeds exactly when the names are distinct and all present. */
  lemma {:induction false} ExtractPathSucceeds(names: seq<string>, ps: Dict<Value>, kwargs: Dict<Value>)
    ensures ExtractPath(names, ps, kwargs).Ok? <==> DistinctPrefix(names, |names|) && AllPresent(names, kwargs)
    decreases |names|
  {
    if names != [] && Has(kwargs, names[0]) {
      ExtractPathSucceeds(names[1..], Put(ps, names[0], Get(kwargs, names[0])), Del(kwargs, names[0]));
      ExtractConditionStep(names, kwargs);
    }
  }

  /** The set of the names in a list. */
  function NameSet(names: seq<string>): (r: set<string>)
    ensures forall k :: k in r <==> k in names
  {
    if names == [] then {} else {names[0]} + NameSet(names[1..])
  }

  /** After the path parameters are moved out, the remaining arguments are the others, in their order. */
  lemma {:induction false} ExtractPathRest(names: seq<string>, ps: Dict<Value>, kwargs: Dict<Value>)
    requires ExtractPath(names, ps, kwargs).Ok?
    ensures ExtractPath(names, ps, kwargs).value.1 == Without(kwargs, NameSet(names))
    decreases |names|
  {
    if names == [] {
      WithoutNothing(kwargs, {});
    } else {
      var n0, tail := names[0], names[1..];
      ExtractPathRest(tail, Put(ps, n0, Get(kwargs, n0)), Del(kwargs, n0));
      WithoutWithout(kwargs, {n0}, NameSet(tail));
    }
  }

  /** After the path parameters are moved out, `ps` has gained exactly the path names. */
  lemma {:induction false} ExtractPathKeys(names: seq<string>, ps: Dict<Value>, kwargs: Dict<Value>)
    requires ExtractPath(names, ps, kwargs).Ok?
    ensures forall k :: Has(ExtractPath(names, ps, kwargs).value.0, k) <==> Has(ps, k) || k in names
    decreases |names|
  {
    if names != [] {
      var n0, tail := names[0], names[1..];
      var ps' := Put(ps, n0, Get(kwargs, n0));
      ExtractPathKeys(tail, ps', Del(kwargs, n0));
      var r := ExtractPath(names, ps, kwargs).value.0;
      assert r == ExtractPath(tail, ps', Del(kwargs, n0)).value.0;
      forall k ensures Has(r, k) <==> Has(ps, k) || k in names {
        assert k in names <==> k == n0 || k in tail;
      }
    }
  }

  /** After the path parameters are moved out, each path name in `ps` holds its argument's value. */
  lemma {:induction false} ExtractPathValues(names: seq<string>, ps: Dict<Value>, kwargs: Dict<Value>)
    requires ExtractPath(names, ps, kwargs).Ok?
    ensures var r := ExtractPath(names, ps, kwargs).value.0;
      forall i :: 0 <= i < |names| ==> Has(kwargs, names[i]) && Has(r, names[i]) && Get(r, names[i]) == Get(kwargs, names[i])
    decreases |names|
  {
    if names != [] {
      var n0, tail := names[0], names[1..];
      var ps', kw' := Put(ps, n0, Get(kwargs, n0)), Del(kwargs, n0);
      var r := ExtractPath(tail, ps', kw').value.0;
      ExtractPathValues(tail, ps', kw');
      ExtractPathSucceeds(names, ps, kwargs);
      ExtractPathKeeps(tail, ps', kw', n0);
      forall i | 0 <= i < |names| ensures Has(kwargs, names[i]) && Has(r, names[i]) && Get(r, names[i]) == Get(kwargs, names[i]) {
        if i > 0 {
          assert names[i] == tail[i - 1];
        }
      }
    }
  }

  /** Moving the path parameters out leaves every other entry of `ps` alone. */
  lemma {:induction false} ExtractPathKeeps(names: seq<string>, ps: Dict<Value>, kwargs: Dict<Value>, k: string)
    requires ExtractPath(names, ps, kwargs).Ok? && Has(ps, k) && k !in names
    ensures Has(ExtractPath(names, ps, kwargs).value.0, k) && Get(ExtractPath(names, ps, kwargs).value.0, k) == Get(ps, k)
    decreases |names|
  {
    if names != [] {
      assert k != names[0] && k !in names[1..];
      ExtractPathKeeps(names[1..], Put(ps, names[0], Get(kwargs, names[0])), Del(kwargs, names[0]), k);
    }
  }

  /**
   * The binding failures of `invoke`, in the order it raises them: a keyword
   * `self` when it is called, then the four checks of its body.
   */
  lemma InvokeBindingErrors(d: Descriptor, names: seq<string>, uriFormat: string, args: seq<Value>, kwargs: Dict<Value>,
                            apiUrl: string, auth: Option<OAuth.OAuth1>)
    ensures var r := InvokeSpec(d, names, uriFormat, args, kwargs, apiUrl, auth);
      (Has(kwargs, "self") ==> r == Err(MultipleValues("self"))) &&
      (!Has(kwargs, "self") && args != [] && names == [] ==> r == Err(PositionalsNotSupported(args))) &&
      (!Has(kwargs, "self") && names != [] && |args| > |names| ==> r == Err(TooManyPositionals)) &&
      (!Has(kwargs, "self") && |args| <= |names| && !(DistinctPrefix(names, |args|) && Unbound(names, |args|, kwargs)) ==>
         r.Err? && r.error.DuplicatedPositional? && exists i :: 0 <= i < |args| && names[i] == r.error.name) &&
      (!Has(kwargs, "self") && |args| <= |names| && DistinctPrefix(names, |args|) && Unbound(names, |args|, kwargs) &&
       (exists j :: |args| <= j < |names| && !Has(kwargs, names[j])) ==>
         r.Err? && r.error.MissingArgument?)
  {
    if |args| <= |names| {
      BindPositionalsSucceeds(names, args, kwargs);
      var bound := BindPositionals(names, args, kwargs);
      if bound.Ok? {
        BindAddsOnlyPositionals(names, args, kwargs);
        ExtractPathSucceeds(names, [], bound.value);
      }
    }
  }

  /** The positional values go under path names only, so deleting the path names undoes the binding. */
  lemma {:induction false} BindWithoutNames(names: seq<string>, args: seq<Value>, kwargs: Dict<Value>, s: set<string>)
    requires |args| <= |names| && BindPositionals(names, args, kwargs).Ok?
    requires forall i :: 0 <= i < |names| ==> names[i] in s
    ensures Without(BindPositionals(names, args, kwargs).value, s) == Without(kwargs, s)
    decreases |args|
  {
    if args != [] {
      var tail := names[1..];
      assert forall i :: 0 <= i < |tail| ==> tail[i] == names[i + 1];
      BindWithoutNames(tail, args[1..], Put(kwargs, names[0], args[0]), s);
      WithoutAppend(kwargs, names[0], args[0], s);
      assert Without(kwargs, s) + [] == Without(kwargs, s);
    }
  }

  /** What `invoke` hands to the type check is the keyword arguments of the call without the path names, in call order. */
  lemma MarshalRest(names: seq<string>, args: seq<Value>, kwargs: Dict<Value>)
    requires Marshal(names, args, kwargs).Ok?
    ensures Marshal(names, args, kwargs).value.1 == Without(kwargs, NameSet(names))
  {
    var bound := BindPositionals(names, args, kwargs).value;
    ExtractPathRest(names, [], bound);
    BindWithoutNames(names, args, kwargs, NameSet(names));
  }

  /**
   * A keyword argument named like a parameter of `invoke` (`self`), of the
   * type check (`method`) or of `_execute` (`http_method`, `url`) makes the
   * call raise, unless it names a path parameter and so goes into the
   * template; a keyword `self` raises at once.
   */
  lemma InvokeReservedNames(d: Descriptor, names: seq<string>, uriFormat: string, args: seq<Value>, kwargs: Dict<Value>,
                            apiUrl: string, auth: Option<OAuth.OAuth1>)
    ensures var r := InvokeSpec(d, names, uriFormat, args, kwargs, apiUrl, auth);
      (Has(kwargs, "self") ==> r == Err(MultipleValues("self"))) &&
      (r.Ok? ==> forall k :: k in CheckerParams + ExecuteParams && Has(kwargs, k) ==> k in names)
  {
    if Has(kwargs, "self") {
      InvokeSelf(d, names, uriFormat, args, kwargs, apiUrl, auth);
    }
    if InvokeSpec(d, names, uriFormat, args, kwargs, apiUrl, auth).Ok? {
      MarshalRest(names, args, kwargs);
      var rest := Marshal(names, args, kwargs).value.1;
      ClashFreeRest(names, kwargs, rest, CheckerParams);
      ClashFreeRest(names, kwargs, rest, ExecuteParams);
    }
  }

  lemma InvokeSelf(d: Descriptor, names: seq<string>, uriFormat: string, args: seq<Value>, kwargs: Dict<Value>,
                   apiUrl: string, auth: Option<OAuth.OAuth1>)
    requires Has(kwargs, "self")
    ensures InvokeSpec(d, names, uriFormat, args, kwargs, apiUrl, auth) == Err(MultipleValues("self"))
  {
    assert Clash(kwargs, InvokeParams) == Some("self");
    assert Marshal(names, args, kwargs) == Err(MultipleValues("self"));
  }

  /** A key that is absent from the arguments without the path names was a path name, or absent all along. */
  lemma ClashFreeRest(names: seq<string>, kwargs: Dict<Value>, rest: Dict<Value>, taken: set<string>)
    requires rest == Without(kwargs, NameSet(names)) && Clash(rest, taken).None?
    ensures forall k :: k in taken && Has(kwargs, k) ==> k in names
  {
  }

  /** A bound name that is no positional name was a keyword argument, with the same value. */
  lemma BindOutsideNames(names: seq<string>, args: seq<Value>, kwargs: Dict<Value>)
    requires |args| <= |names| && BindPositionals(names, args, kwargs).Ok?
    ensures var bound := BindPositionals(names, args, kwargs).value;
      forall k :: Has(bound, k) && k !in names ==> Has(kwargs, k) && Get(bound, k) == Get(kwargs, k)
  {
    BindKeepsKeywords(names, args, kwargs);
    BindAddsOnlyPositionals(names, args, kwargs);
  }

  /**
   * `invoke` sends exactly the keyword arguments of the call that are neither
   * path names nor keys of `:` segments of the filled-in URL, in call order
   * and with their values.
   */
  lemma InvokeForwardsKeywords(d: Descriptor, names: seq<string>, uriFormat: string, args: seq<Value>, kwargs: Dict<Value>,
                               apiUrl: string, auth: Option<OAuth.OAuth1>)
    requires InvokeSpec(d, names, uriFormat, args, kwargs, apiUrl, auth).Ok?
    ensures var sent := InvokeSpec(d, names, uriFormat, args, kwargs, apiUrl, auth).value;
      var url := UriTemplate.Format(uriFormat, Marshal(names, args, kwargs).value.0).value;
      sent.params == Without(kwargs, NameSet(names) + ColonKeys(PyStr.Split(url, '/')))
    ensures var sent := InvokeSpec(d, names, uriFormat, args, kwargs, apiUrl, auth).value;
      forall k :: Has(sent.params, k) ==> k !in names && Has(kwargs, k) && Get(sent.params, k) == Get(kwargs, k)
  {
    var m := Marshal(names, args, kwargs).value;
    var rest := m.1;
    var url := UriTemplate.Format(uriFormat, m.0).value;
    var items := PyStr.Split(url, '/');
    var sent := InvokeSpec(d, names, uriFormat, args, kwargs, apiUrl, auth).value;
    assert sent.params == Without(rest, ColonKeys(items)) by {
      assert sent.params == Rewrite(url, items, rest).1;
      RewriteDropsColonKeys(url, items, rest);
    }
    MarshalRest(names, args, kwargs);
    WithoutWithout(kwargs, NameSet(names), ColonKeys(items));
  }

  /**
   * A call with one positional argument on a one-line URI `a{p}b`: the
   * template becomes `a%(p)sb`, `p` is bound to the argument and filled in,
   * and `_execute` gets `a`, `str` of the argument, `b`, with the keyword
   * arguments as they were.
   */
  lemma InvokeOnePlaceholder(d: Descriptor, a: string, p: string, b: string, v: Value, kwargs: Dict<Value>,
                             apiUrl: string, auth: Option<OAuth.OAuth1>)
    requires d.uri == a + UriTemplate.Brace(p) + b && '\n' !in d.uri
    requires '{' !in a && '}' !in b && '%' !in a && '%' !in b && '(' !in p && ')' !in p
    requires !Has(kwargs, p) && TypeCheck.CheckArgs(d.params, kwargs).None?
    requires forall k :: k in CheckerParams + ExecuteParams ==> !Has(kwargs, k)
    ensures UriTemplate.Placeholders(d.uri) == [p]
    ensures UriTemplate.FormatOf(d.uri, [p]) == a + UriTemplate.Slot(p) + b
    ensures InvokeSpec(d, [p], UriTemplate.FormatOf(d.uri, [p]), [v], kwargs, apiUrl, auth) ==
      var sent := ExecuteSpec(apiUrl, d.httpMethod, a + Render(v) + b, kwargs, auth);
      if sent.Ok? then Ok(sent.value) else Err(BadVerb(sent.error))
  {
    UriTemplate.BracedPlaceholder(a, p, b);
    UriTemplate.CompileOneLine(a, p, b);
    OneMarshal(kwargs, p, v);
    UriTemplate.FormatOneSlot(a, p, b, Put([], p, v));
    assert Clash(kwargs, ExecuteParams).None?;
  }

  /** With no reserved keyword, one positional value for the one path name is bound and moved into `ps`. */
  lemma OneMarshal(kwargs: Dict<Value>, p: string, v: Value)
    requires !Has(kwargs, p)
    requires forall k :: k in CheckerParams + ExecuteParams ==> !Has(kwargs, k)
    ensures Marshal([p], [v], kwargs) == Ok((Put([], p, v), kwargs))
    ensures Has(Put([], p, v), p) && Get(Put([], p, v), p) == v
  {
    OneBind(kwargs, p, v);
    OneExtract(kwargs, p, v);
    assert Clash(kwargs, InvokeParams).None? && Clash(kwargs, CheckerParams).None?;
  }

  /** Binding one positional value to a name not yet among the arguments appends it. */
  lemma OneBind(kwargs: Dict<Value>, p: string, v: Value)
    requires !Has(kwargs, p)
    ensures BindPositionals([p], [v], kwargs) == Ok(Put(kwargs, p, v))
  {
    assert BindPositionals([p][1..], [v][1..], Put(kwargs, p, v)) == Ok(Put(kwargs, p, v));
  }

  /** Extracting the one path parameter takes back exactly what was appended. */
  lemma OneExtract(kwargs: Dict<Value>, p: string, v: Value)
    requires !Has(kwargs, p)
    ensures ExtractPath([p], [], Put(kwargs, p, v)) == Ok((Put([], p, v), kwargs))
    ensures Has(Put([], p, v), p) && Get(Put([], p, v), p) == v
  {
    PutDel(kwargs, p, v);
    var ps := Put([], p, v);
    assert ExtractPath([p][1..], ps, kwargs) == Ok((ps, kwargs));
  }

  lemma TwoBracesShape()
    ensures "/a/{x}/b/{y}" == "/a/" + UriTemplate.Brace("x}/b/{y") + ""
    ensures '\n' !in "/a/{x}/b/{y}" && '{' !in "/a/"
  {
  }

  /**
   * The greedy pattern on a URI with two placeholders: `/a/{x}/b/{y}` yields
   * the single name `x}/b/{y`, so such an endpoint takes one positional argument.
   */
  lemma GreedyTwoPlaceholders()
    ensures UriTemplate.Placeholders("/a/{x}/b/{y}") == ["x}/b/{y"]
  {
    TwoBracesShape();
    UriTemplate.BracedPlaceholder("/a/", "x}/b/{y", "");
  }

  /** `str(42)`. */
  lemma FortyTwo()
    ensures Render(Int(42)) == "42"
  {
    assert PyStr.NatDigits(4) == [PyStr.Digit(4)] == "4";
    assert PyStr.Digit(2) == '2';
    assert PyStr.NatDigits(42) == PyStr.NatDigits(4) + [PyStr.Digit(2)];
  }

  lemma UsersTemplate()
    ensures "/users/{user_id}" == "/users/" + UriTemplate.Brace("user_id") + ""
    ensures '\n' !in "/users/{user_id}" && '{' !in "/users/" && '%' !in "/users/"
    ensures '(' !in "user_id" && ')' !in "user_id"
  {
  }

  lemma UsersPath()
    ensures "/users/" + Render(Int(42)) + "" == "/users/42" && ':' !in "/users/42"
  {
    FortyTwo();
  }

  /**
   * The documented example: `getUser` with URI `/users/{user_id}` and verb
   * `GET`, called with the single positional argument 42, sends a query
   * request to `/users/42` under the base URL with no parameters.
   */
  lemma GetUserExample(apiUrl: string, params: map<string, string>, auth: Option<OAuth.OAuth1>)
    ensures var d := Descriptor("getUser", "/users/{user_id}", "GET", params, "Get a User");
      InvokeSpec(d, UriTemplate.Placeholders(d.uri), UriTemplate.FormatOf(d.uri, UriTemplate.Placeholders(d.uri)),
                 [Int(42)], [], apiUrl, auth) ==
      Ok(Request("GET", Query, apiUrl + "/users/42", [], auth))
  {
    var d := Descriptor("getUser", "/users/{user_id}", "GET", params, "Get a User");
    UsersTemplate();
    InvokeOnePlaceholder(d, "/users/", "user_id", "", Int(42), [], apiUrl, auth);
    UsersPath();
    NoColonUrlUnchanged("/users/42", []);
  }

  /** `dict([(m['name'], m) for m in ms])`: by name, the last descriptor of that name winning. */
  function TableOf(ms: MethodTable): (t: map<string, Descriptor>)
    ensures forall n :: n in t ==> t[n].name == n
  {
    if ms == [] then map[]
    else TableOf(ms[..|ms| - 1])[ms[|ms| - 1].name := ms[|ms| - 1]]
  }

  lemma TableOfSnoc(ms: MethodTable, i: nat)
    requires i < |ms|
    ensures TableOf(ms[..i + 1]) == TableOf(ms[..i])[ms[i].name := ms[i]]
  {
    assert ms[..i + 1][..i] == ms[..i];
  }

  /** The table has an entry for exactly the names in the list. */
  lemma {:induction false} TableOfNames(ms: MethodTable)
    ensures forall n :: n in TableOf(ms) <==> exists i :: 0 <= i < |ms| && ms[i].name == n
  {
    if ms != [] {
      var init := ms[..|ms| - 1];
      TableOfNames(init);
      assert forall i :: 0 <= i < |init| ==> init[i] == ms[i];
    }
  }

  /** A name maps to the last descriptor that carries it. */
  lemma {:induction false} TableOfLastWins(ms: MethodTable, i: nat)
    requires i < |ms| && forall j :: i < j < |ms| ==> ms[j].name != ms[i].name
    ensures ms[i].name in TableOf(ms) && TableOf(ms)[ms[i].name] == ms[i]
  {
    if i < |ms| - 1 {
      var init := ms[..|ms| - 1];
      assert init[i] == ms[i];
      TableOfLastWins(init, i);
    }
  }

  class APIMethod {
    const api: EtsyAPI
    const spec: Descriptor
    const typeChecker: TypeCheck.TypeChecker
    /** `__doc__`. */
    const doc: string
    var compiled: bool
    var positionals: seq<string>
    var uriFormat: string

    /** Once compiled, the fields hold what `compile` derives from the URI. */
    ghost predicate Consistent()
      reads this
    {
      compiled ==> positionals == UriTemplate.Placeholders(spec.uri) && uriFormat == UriTemplate.FormatOf(spec.uri, positionals)
    }

    constructor (api: EtsyAPI, spec: Descriptor)
      ensures this.api == api && this.spec == spec && typeChecker == api.typeChecker
      ensures doc == spec.description && !compiled && Consistent()
    {
      this.api := api;
      this.spec := spec;
      typeChecker := api.typeChecker;
      doc := spec.description;
      compiled := false;
      positionals := [];
      uriFormat := "";
    }

    /** `compile`: the positional names from the URI, and the URI with each `{name}` turned into `%(name)s`. */
    method Compile()
      modifies this`compiled, this`positionals, this`uriFormat
      ensures compiled && Consistent()
    {
      var uri := spec.uri;
      positionals := UriTemplate.Placeholders(uri);
      var i := 0;
      while i < |positionals|
        invariant 0 <= i <= |positionals|
        invariant UriTemplate.FormatOf(uri, positionals[i..]) == UriTemplate.FormatOf(spec.uri, positionals)
      {
        assert positionals[i..][1..] == positionals[i + 1..];
        uri := PyStr.ReplaceAll(uri, UriTemplate.Brace(positionals[i]), UriTemplate.Slot(positionals[i]));
        i := i + 1;
      }
      uriFormat := uri;
      compiled := true;
    }

    /**
     * `invoke`: needs a compiled method, as the fields it reads only exist
     * after `compile`. The type checker's table gains the type names the type
     * check looks up, and nothing when `invoke` raises before it.
     */
    method Invoke(args: seq<Value>, kwargs: Dict<Value>) returns (r: Result<Request, InvokeError>)
      requires compiled && typeChecker.Valid()
      modifies typeChecker
      ensures typeChecker.Valid()
      ensures typeChecker.checkers.Keys == old(typeChecker.checkers.Keys) + TypesLookedUp(spec.params, Marshal(positionals, args, kwargs))
      ensures r == InvokeSpec(spec, positionals, uriFormat, args, kwargs, api.apiUrl, api.oauthClient.accessToken)
    {
      var clash := Clash(kwargs, InvokeParams);
      if clash.Some? {
        return Err(MultipleValues(clash.value));
      }
      if args != [] && positionals == [] {
        return Err(PositionalsNotSupported(args));
      }
      if |args| > |positionals| {
        return Err(TooManyPositionals);
      }
      var bound := Bind(positionals, args, kwargs);
      if bound.Err? {
        return Err(bound.error);
      }
      var split := Extract(positionals, bound.value);
      if split.Err? {
        return Err(split.error);
      }
      var (ps, kw) := split.value;
      clash := Clash(kw, CheckerParams);
      if clash.Some? {
        return Err(MultipleValues(clash.value));
      }
      var outcome, _ := typeChecker.Check(spec.params, kw);
      if outcome.Some? {
        return Err(BadArgument(outcome.value));
      }
      var url := UriTemplate.Format(uriFormat, ps);
      if url.Err? {
        return Err(BadTemplate(url.error));
      }
      clash := Clash(kw, ExecuteParams);
      if clash.Some? {
        return Err(MultipleValues(clash.value));
      }
      var sent := api.Execute(spec.httpMethod, url.value, kw);
      if sent.Err? {
        return Err(BadVerb(sent.error));
      }
      r := Ok(sent.value);
    }

    /**
     * `__call__`: a keyword `self` raises before anything else; otherwise it
     * compiles on the first call only, then invokes.
     */
    method Call(args: seq<Value>, kwargs: Dict<Value>) returns (r: Result<Request, InvokeError>)
      requires Consistent() && typeChecker.Valid()
      modifies this`compiled, this`positionals, this`uriFormat, typeChecker
      ensures Consistent() && typeChecker.Valid()
      ensures compiled == (old(compiled) || !Has(kwargs, "self"))
      ensures old(compiled) || Has(kwargs, "self") ==> positionals == old(positionals) && uriFormat == old(uriFormat)
      ensures typeChecker.checkers.Keys ==
        old(typeChecker.checkers.Keys) + TypesLookedUp(spec.params, Marshal(UriTemplate.Placeholders(spec.uri), args, kwargs))
      ensures r == InvokeSpec(spec, UriTemplate.Placeholders(spec.uri), UriTemplate.FormatOf(spec.uri, UriTemplate.Placeholders(spec.uri)),
                              args, kwargs, api.apiUrl, api.oauthClient.accessToken)
    {
      if Has(kwargs, "self") {
        return Err(MultipleValues("self"));
      }
      if !compiled {
        Compile();
      }
      r := Invoke(args, kwargs);
    }
  }

  class EtsyAPI {
    const apiUrl: string
    const oauthClient: OAuth.EtsyOAuthClient
    const typeChecker: TypeCheck.TypeChecker
    const methodCache: MethodCache.MethodTableCache
    /** `_methods`. */
    var methods: map<string, Descriptor>
    /** The endpoint objects `setattr` binds, by name. */
    var endpoints: map<string, APIMethod>

    /**
     * `__init__` with a base URL that passed the trailing-slash check, and
     * `_get_methods`: the method table comes from the cache or, failing
     * that, from the server (`server`, the table a `GET /` returns).
     */
    constructor (oauthClient: OAuth.EtsyOAuthClient, methodCache: Option<string>, env: Environments.EtsyEnv,
                 host: MethodCache.Host, disk: MethodCache.Disk, server: MethodTable, now: int)
      requires !PyStr.EndsWith(env.apiUrl, "/")
      modifies disk
      ensures apiUrl == env.apiUrl && this.oauthClient == oauthClient
      ensures fresh(typeChecker) && typeChecker.checkers == TypeCheck.Builtins() && typeChecker.Valid()
      ensures fresh(this.methodCache)
      ensures this.methodCache.filename == Some(MethodCache.ResolveFile(methodCache, host))
      ensures var file := Some(MethodCache.ResolveFile(methodCache, host));
        methods == TableOf(MethodCache.GetTable(file, old(disk.files), server, now)) &&
        disk.files == MethodCache.FilesAfterGet(file, old(disk.files), server, now)
      ensures var file := Some(MethodCache.ResolveFile(methodCache, host));
        this.methodCache.usedCache == MethodCache.CachedTable(file, old(disk.files), now).Some? &&
        this.methodCache.wroteCache == MethodCache.Refetches(file, old(disk.files), now)
      ensures endpoints.Keys == methods.Keys
      ensures forall n :: n in endpoints ==>
        fresh(endpoints[n]) && endpoints[n].api == this && endpoints[n].spec == methods[n] &&
        endpoints[n].typeChecker == typeChecker && !endpoints[n].compiled && endpoints[n].Consistent()
    {
      apiUrl := env.apiUrl;
      this.oauthClient := oauthClient;
      typeChecker := new TypeCheck.TypeChecker();
      methods := map[];
      endpoints := map[];
      this.methodCache := new MethodCache.MethodTableCache(methodCache, host);
      new;
      var ms := this.methodCache.Get(disk, server, now);
      methods := TableOf(ms);
      BindEndpoints(ms);
    }

    /** The `setattr` loop of `_get_methods`: one fresh, uncompiled endpoint object per name, the last descriptor winning. */
    method BindEndpoints(ms: MethodTable)
      modifies this`endpoints
      ensures endpoints.Keys == TableOf(ms).Keys
      ensures forall n :: n in endpoints ==>
        fresh(endpoints[n]) && endpoints[n].api == this && endpoints[n].spec == TableOf(ms)[n] &&
        endpoints[n].typeChecker == typeChecker && !endpoints[n].compiled && endpoints[n].Consistent()
    {
      endpoints := map[];
      var i := 0;
      while i < |ms|
        invariant 0 <= i <= |ms|
        invariant endpoints.Keys == TableOf(ms[..i]).Keys
        invariant forall n :: n in endpoints ==>
          fresh(endpoints[n]) && endpoints[n].api == this && endpoints[n].spec == TableOf(ms[..i])[n] &&
          endpoints[n].typeChecker == typeChecker && !endpoints[n].compiled && endpoints[n].Consistent()
      {
        TableOfSnoc(ms, i);
        var m := new APIMethod(this, ms[i]);
        endpoints := endpoints[ms[i].name := m];
        i := i + 1;
      }
      assert ms[..|ms|] == ms;
    }

    /** `_execute`, up to the request it would send. */
    method Execute(verb: string, url: string, kwargs: Dict<Value>) returns (r: Result<Request, ExecError>)
      ensures r == ExecuteSpec(apiUrl, verb, url, kwargs, oauthClient.accessToken)
    {
      var u, kw := RewriteLoop(url, kwargs);
      u := apiUrl + u;
      var token := oauthClient.accessToken;
      if verb == "GET" || verb == "DELETE" {
        r := Ok(Request(verb, Query, u, kw, token));
      } else if verb == "POST" || verb == "PUT" {
        r := Ok(Request(verb, Body, u, kw, token));
      } else {
        r := Err(UnsupportedMethod(verb));
      }
    }
  }

  /** `EtsyAPI(...)`: raises for a base URL ending in `/`, before anything is read or fetched. */
  method NewEtsyAPI(oauthClient: OAuth.EtsyOAuthClient, methodCache: Option<string>, env: Environments.EtsyEnv,
                    host: MethodCache.Host, disk: MethodCache.Disk, server: MethodTable, now: int) returns (api: Option<EtsyAPI>)
    modifies disk
    ensures api.None? <==> PyStr.EndsWith(env.apiUrl, "/")
    ensures api.None? ==> disk.files == old(disk.files)
    ensures api.Some? ==> fresh(api.value) && api.value.apiUrl == env.apiUrl
    ensures api.Some? ==>
      api.value.methods == TableOf(MethodCache.GetTable(Some(MethodCache.ResolveFile(methodCache, host)), old(disk.files), server, now))
  {
    if PyStr.EndsWith(env.apiUrl, "/") {
      return None;
    }
    var a := new EtsyAPI(oauthClient, methodCache, env, host, disk, server, now);
    api := Some(a);
  }
}
