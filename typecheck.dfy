/**
 * `TypeChecker` (etsy/_core.py): checks call-time keyword arguments against
 * the `params` type map of an endpoint descriptor, compiling and caching one
 * checker per type name.
 */
module TypeCheck {
  import opened Results
  import opened Values
  import opened Dicts
  import PyStr

  /**
   * The checkers the source builds: the three bound methods `check_int`,
   * `check_float`, `check_string`, a `check_enum` closure over its terms,
   * and `always_ok`.
   */
  datatype Checker =
    | CheckInt
    | CheckFloat
    | CheckString
    | CheckEnum(terms: seq<string>)
    | AlwaysOk

  /**
   * Calling a checker: whether it accepts `v`, and the converted value, which
   * every checker returns unchanged. `check_float` accepts an `int` (or
   * `bool`) as it is; an enum accepts a string equal to one of its terms,
   * case-sensitively, and no value of another type.
   */
  function Run(c: Checker, v: Value): (r: (bool, Value))
    ensures r.1 == v
  {
    match c
    case CheckInt => (IsInt(v), v)
    case CheckFloat => (if IsInt(v) then true else v.Float?, v)
    case CheckString => (v.Str?, v)
    case CheckEnum(terms) => (v.Str? && v.s in terms, v)
    case AlwaysOk => (true, v)
  }

  /** The table a new `TypeChecker` starts with. */
  function Builtins(): map<string, Checker> {
    map["int" := CheckInt, "float" := CheckFloat, "string" := CheckString]
  }

  /** `t[5:-1]` with Python's clamping: empty for type names shorter than six characters. */
  function EnumBody(t: string): string {
    if |t| >= 6 then t[5..|t| - 1] else ""
  }

  /** `[x.strip() for x in parts]`. */
  function StripAll(parts: seq<string>): (r: seq<string>)
    ensures |r| == |parts|
    ensures forall i, c :: 0 <= i < |r| && c in r[i] ==> c in parts[i]
  {
    if parts == [] then [] else [PyStr.Strip(parts[0])] + StripAll(parts[1..])
  }

  /** The terms `compile_enum` accepts: `t[5:-1]` split at commas, each piece stripped. */
  function EnumTerms(t: string): (terms: seq<string>)
    ensures |terms| >= 1
    ensures forall i :: 0 <= i < |terms| ==> ',' !in terms[i]
  {
    StripAll(PyStr.Split(EnumBody(t), ','))
  }

  /** What `compile` makes of a type name missing from the table. */
  function Compiled(t: string): (c: Checker)
    ensures forall v :: Run(c, v).0 <==> (PyStr.StartsWith(t, "enum") ==> v.Str? && v.s in EnumTerms(t))
  {
    if PyStr.StartsWith(t, "enum") then CheckEnum(EnumTerms(t)) else AlwaysOk
  }

  /** The checker a type name stands for: the built-in one, or the compiled one. */
  function Standard(t: string): Checker {
    if t in Builtins() then Builtins()[t] else Compiled(t)
  }

  /** An argument the check lets through: `includes`, or a declared one whose checker accepts it. */
  predicate Admissible(params: map<string, string>, k: string, v: Value) {
    k == "includes" || (k in params && Run(Standard(params[k]), v).0)
  }

  datatype CheckError =
    | UnexpectedArgument(name: string, value: Value)
    | BadValue(name: string, typeName: string, value: Value)

  /** The error raised for an argument that is not admissible. */
  function Complaint(params: map<string, string>, k: string, v: Value): CheckError {
    if k in params then BadValue(k, params[k], v) else UnexpectedArgument(k, v)
  }

  /** The outcome of `TypeChecker.__call__`: `None`, or the error raised for the first failing argument. */
  function CheckArgs(params: map<string, string>, kwargs: Dict<Value>): (r: Option<CheckError>)
    ensures r.Some? ==> (r.value.name, r.value.value) in kwargs && r.value.name != "includes"
    decreases |kwargs|
  {
    if kwargs == [] then None
    else
      var (k, v) := kwargs[0];
      if Admissible(params, k, v) then CheckArgs(params, kwargs[1..])
      else Some(Complaint(params, k, v))
  }

  /** The type names looked up before the check returns or raises. */
  function Consulted(params: map<string, string>, kwargs: Dict<Value>): set<string>
    decreases |kwargs|
  {
    if kwargs == [] then {}
    else
      var (k, v) := kwargs[0];
      if k == "includes" then Consulted(params, kwargs[1..])
      else if k !in params then {}
      else if !Run(Standard(params[k]), v).0 then {params[k]}
      else {params[k]} + Consulted(params, kwargs[1..])
  }

  /** The check passes exactly when every argument is admissible. */
  lemma {:induction false} CheckArgsPasses(params: map<string, string>, kwargs: Dict<Value>)
    ensures CheckArgs(params, kwargs).None? <==>
      forall i :: 0 <= i < |kwargs| ==> Admissible(params, kwargs[i].0, kwargs[i].1)
    decreases |kwargs|
  {
    if kwargs != [] {
      CheckArgsPasses(params, kwargs[1..]);
      assert forall i :: 1 <= i < |kwargs| ==> kwargs[i] == kwargs[1..][i - 1];
    }
  }

  /** A failing check reports the first argument that is not admissible. */
  lemma {:induction false} CheckArgsReportsFirst(params: map<string, string>, kwargs: Dict<Value>)
    requires CheckArgs(params, kwargs).Some?
    ensures exists i :: 0 <= i < |kwargs| &&
              !Admissible(params, kwargs[i].0, kwargs[i].1) &&
              (forall j :: 0 <= j < i ==> Admissible(params, kwargs[j].0, kwargs[j].1)) &&
              CheckArgs(params, kwargs) == Some(Complaint(params, kwargs[i].0, kwargs[i].1))
    decreases |kwargs|
  {
    if Admissible(params, kwargs[0].0, kwargs[0].1) {
      CheckArgsReportsFirst(params, kwargs[1..]);
      var i :| 0 <= i < |kwargs[1..]| &&
        !Admissible(params, kwargs[1..][i].0, kwargs[1..][i].1) &&
        (forall j :: 0 <= j < i ==> Admissible(params, kwargs[1..][j].0, kwargs[1..][j].1)) &&
        CheckArgs(params, kwargs[1..]) == Some(Complaint(params, kwargs[1..][i].0, kwargs[1..][i].1));
      FirstFailureShift(params, kwargs, i);
    } else {
      assert !Admissible(params, kwargs[0].0, kwargs[0].1);
    }
  }

  /** The first inadmissible argument of the tail, behind an admissible head, is the first of the whole list. */
  lemma FirstFailureShift(params: map<string, string>, kwargs: Dict<Value>, i: nat)
    requires i + 1 < |kwargs| && Admissible(params, kwargs[0].0, kwargs[0].1)
    requires !Admissible(params, kwargs[1..][i].0, kwargs[1..][i].1)
    requires forall j :: 0 <= j < i ==> Admissible(params, kwargs[1..][j].0, kwargs[1..][j].1)
    ensures kwargs[i + 1] == kwargs[1..][i] && !Admissible(params, kwargs[i + 1].0, kwargs[i + 1].1)
    ensures forall j :: 0 <= j < i + 1 ==> Admissible(params, kwargs[j].0, kwargs[j].1)
  {
    assert forall j :: 1 <= j < i + 1 ==> kwargs[j] == kwargs[1..][j - 1];
  }

  /**
   * `int` accepts ints and booleans only; `float` accepts those and floats;
   * `string` accepts strings only.
   */
  lemma PrimitiveCheckers(v: Value)
    ensures Run(Standard("int"), v).0 <==> v.Int? || v.Bool?
    ensures Run(Standard("float"), v).0 <==> v.Int? || v.Bool? || v.Float?
    ensures Run(Standard("string"), v).0 <==> v.Str?
  {
  }

  /** A float given for an `int` parameter is rejected; an int given for a `float` one passes unchanged. */
  lemma IntFloatWidening(k: string, n: int, text: string)
    requires k != "includes"
    ensures CheckArgs(map[k := "int"], [(k, Float(text))]) == Some(BadValue(k, "int", Float(text)))
    ensures CheckArgs(map[k := "float"], [(k, Int(n))]).None?
    ensures Run(Standard("float"), Int(n)).1 == Int(n)
  {
  }

  /** A type name that is neither built in nor starts with `enum` accepts every value. */
  lemma UnknownTypeAcceptsAll(t: string, v: Value)
    requires t !in Builtins() && !PyStr.StartsWith(t, "enum")
    ensures Run(Standard(t), v).0
  {
  }

  lemma JoinedSplitsAtFirstComma(pre: string, terms: seq<string>)
    requires |terms| > 1
    ensures pre + PyStr.Join(terms, ", ") == (pre + terms[0]) + [','] + (" " + PyStr.Join(terms[1..], ", "))
  {
    assert PyStr.Join(terms, ", ") == terms[0] + ", " + PyStr.Join(terms[1..], ", ");
  }

  lemma StripAllCons(first: string, tail: seq<string>)
    ensures StripAll([first] + tail) == [PyStr.Strip(first)] + StripAll(tail)
  {
    assert ([first] + tail)[1..] == tail;
  }

  lemma StripAfterBlank(pre: string, t: string)
    requires pre == "" || pre == " "
    requires PyStr.Strip(t) == t
    ensures PyStr.Strip(pre + t) == t
  {
    if pre == " " {
      PyStr.StripLeadingSpace(t);
    } else {
      assert pre + t == t;
    }
  }

  /** A term `compile_enum` recovers as it is: no comma inside, nothing to strip. */
  predicate PlainTerm(x: string) {
    ',' !in x && PyStr.Strip(x) == x
  }

  lemma SplitSingleTerm(pre: string, terms: seq<string>)
    requires pre == "" || pre == " "
    requires |terms| == 1 && ',' !in terms[0]
    ensures PyStr.Split(pre + PyStr.Join(terms, ", "), ',') == [pre + terms[0]]
  {
    assert pre + PyStr.Join(terms, ", ") == pre + terms[0];
    PyStr.SplitNoSeparator(pre + terms[0], ',');
  }

  lemma StripAllSingle(first: string, terms: seq<string>)
    requires |terms| == 1 && PyStr.Strip(first) == terms[0]
    ensures StripAll([first]) == terms
  {
    StripAllCons(first, []);
    assert [first] + [] == [first];
    assert terms == [terms[0]];
  }

  lemma SplitJoinedSingle(pre: string, terms: seq<string>)
    requires pre == "" || pre == " "
    requires |terms| == 1 && PlainTerm(terms[0])
    ensures StripAll(PyStr.Split(pre + PyStr.Join(terms, ", "), ',')) == terms
  {
    StripAfterBlank(pre, terms[0]);
    SplitSingleTerm(pre, terms);
    StripAllSingle(pre + terms[0], terms);
  }

  lemma SplitJoinedCons(pre: string, terms: seq<string>)
    requires pre == "" || pre == " "
    requires |terms| > 1 && PlainTerm(terms[0])
    requires StripAll(PyStr.Split(" " + PyStr.Join(terms[1..], ", "), ',')) == terms[1..]
    ensures StripAll(PyStr.Split(pre + PyStr.Join(terms, ", "), ',')) == terms
  {
    var tail := PyStr.Split(" " + PyStr.Join(terms[1..], ", "), ',');
    calc {
      StripAll(PyStr.Split(pre + PyStr.Join(terms, ", "), ','));
      { SplitAtFirstTerm(pre, terms); }
      StripAll([pre + terms[0]] + tail);
      { StripAllCons(pre + terms[0], tail); }
      [PyStr.Strip(pre + terms[0])] + StripAll(tail);
      { StripAfterBlank(pre, terms[0]); }
      [terms[0]] + terms[1..];
      { HeadTail(terms); }
      terms;
    }
  }

  lemma HeadTail(xs: seq<string>)
    requires xs != []
    ensures [xs[0]] + xs[1..] == xs
  {
  }

  /** The first comma of the joined list ends the first term. */
  lemma SplitAtFirstTerm(pre: string, terms: seq<string>)
    requires pre == "" || pre == " "
    requires |terms| > 1 && ',' !in terms[0]
    ensures PyStr.Split(pre + PyStr.Join(terms, ", "), ',') ==
      [pre + terms[0]] + PyStr.Split(" " + PyStr.Join(terms[1..], ", "), ',')
  {
    JoinedSplitsAtFirstComma(pre, terms);
    assert ',' !in pre + terms[0];
    PyStr.SplitFirst(pre + terms[0], ',', " " + PyStr.Join(terms[1..], ", "));
  }

  /** Splitting `pre + Join(terms, ", ")` at commas and stripping the pieces gives back `terms`. */
  lemma {:induction false} SplitJoinedTerms(pre: string, terms: seq<string>)
    requires pre == "" || pre == " "
    requires terms != []
    requires forall i :: 0 <= i < |terms| ==> PlainTerm(terms[i])
    ensures StripAll(PyStr.Split(pre + PyStr.Join(terms, ", "), ',')) == terms
    decreases |terms|
  {
    if |terms| == 1 {
      SplitJoinedSingle(pre, terms);
    } else {
      var ts := terms[1..];
      forall i | 0 <= i < |ts| ensures PlainTerm(ts[i]) {
        assert ts[i] == terms[i + 1];
      }
      SplitJoinedTerms(" ", ts);
      SplitJoinedCons(pre, terms);
    }
  }

  /** `enum(<body>)` is not a built-in name, is compiled as an enum, and its body is `body`. */
  lemma EnumName(body: string)
    ensures "enum(" + body + ")" !in Builtins()
    ensures Compiled("enum(" + body + ")") == CheckEnum(StripAll(PyStr.Split(body, ',')))
  {
    var t := "enum(" + body + ")";
    assert t[..4] == "enum";
    assert PyStr.StartsWith(t, "enum");
    assert EnumBody(t) == body;
  }

  /**
   * `enum(a, b, c)` accepts exactly the strings `a`, `b` and `c`, compared
   * case-sensitively, and nothing that is not a string.
   */
  lemma EnumAcceptsExactlyItsTerms(terms: seq<string>, v: Value)
    requires terms != []
    requires forall i :: 0 <= i < |terms| ==> PlainTerm(terms[i])
    ensures Run(Standard("enum(" + PyStr.Join(terms, ", ") + ")"), v).0 <==> v.Str? && v.s in terms
  {
    var body := PyStr.Join(terms, ", ");
    EnumName(body);
    SplitJoinedTerms("", terms);
    assert "" + body == body;
  }

  class TypeChecker {
    var checkers: map<string, Checker>

    /** The table holds the built-in checkers, and each cached entry is what its name stands for. */
    ghost predicate Valid()
      reads this
    {
      (forall t :: t in Builtins() ==> t in checkers) &&
      (forall t :: t in checkers ==> checkers[t] == Standard(t))
    }

    constructor ()
      ensures checkers == Builtins() && Valid()
    {
      checkers := Builtins();
    }

    /** `compile`: builds the checker for `t` and caches it under exactly that name. */
    method Compile(t: string) returns (f: Checker)
      modifies this`checkers
      ensures f == Compiled(t)
      ensures checkers == old(checkers)[t := f]
      ensures checkers.Keys == old(checkers).Keys + {t}
    {
      if PyStr.StartsWith(t, "enum") {
        f := CheckEnum(EnumTerms(t));
      } else {
        f := AlwaysOk;
      }
      checkers := checkers[t := f];
    }

    /** `self.checkers.get(t, None) or self.compile(t)`: the cached checker, compiled on first use. */
    method Resolve(t: string) returns (f: Checker)
      requires Valid()
      modifies this`checkers
      ensures Valid()
      ensures f == Standard(t)
      ensures checkers.Keys == old(checkers).Keys + {t}
      ensures t in old(checkers) ==> checkers == old(checkers)
    {
      if t in checkers {
        f := checkers[t];
      } else {
        f := Compile(t);
      }
    }

    /**
     * `__call__`: checks the arguments in order and stops at the first one
     * that is not admissible. `converted` is the callee's own copy of the
     * arguments after `kwargs[k] = converted`; it equals `kwargs` whenever the
     * check passes. The cache gains the type names looked up and nothing else.
     */
    method Check(params: map<string, string>, kwargs: Dict<Value>) returns (outcome: Option<CheckError>, converted: Dict<Value>)
      requires Valid()
      modifies this`checkers
      ensures Valid()
      ensures outcome == CheckArgs(params, kwargs)
      ensures outcome.None? ==> converted == kwargs
      ensures checkers.Keys == old(checkers).Keys + Consulted(params, kwargs)
    {
      converted := kwargs;
      var i := 0;
      while i < |kwargs|
        invariant 0 <= i <= |kwargs|
        invariant Valid()
        invariant converted == kwargs
        invariant CheckArgs(params, kwargs) == CheckArgs(params, kwargs[i..])
        invariant checkers.Keys + Consulted(params, kwargs[i..]) == old(checkers).Keys + Consulted(params, kwargs)
      {
        var (k, v) := kwargs[i];
        assert kwargs[i..][1..] == kwargs[i + 1..];
        if k == "includes" {
          i := i + 1;
          continue;
        }
        if k !in params {
          return Some(UnexpectedArgument(k, v)), converted;
        }
        var t := params[k];
        var checker := Resolve(t);
        var (ok, value) := Run(checker, v);
        if !ok {
          return Some(BadValue(k, t, v)), converted;
        }
        converted := converted[i := (k, value)];
        i := i + 1;
      }
      outcome := None;
    }
  }
}
