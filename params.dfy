/** The parameter-limit check: counts the parameters of every top-level
    function declaration, classifies the declaration as public or private
    by the case of its first letter, and reports one issue for each
    declaration whose count exceeds the limit of its class.
    Declarations arrive already parsed; the checker looks only at their
    signatures. */
module ParamLimit {
  import Flags

  /** One syntactic parameter entry: `a, b int` binds the two names `a`
      and `b`; `b ...int` binds `b` and is variadic. */
  datatype ParamGroup = ParamGroup(names: seq<string>, variadic: bool)

  /** A parsed top-level function declaration. `body` is the text of the
      function body, which the checker never inspects. */
  datatype Decl = Decl(name: string, params: seq<ParamGroup>, body: string)

  /** The two configured limits. */
  datatype Options = Options(paramLimitPrivate: int, paramLimitPublic: int)

  /** A reported violation: the declaration's name, its parameter count and
      the limit it exceeded. */
  datatype Issue = Issue(name: string, count: nat, threshold: int)

  predicate IsUpperAscii(c: char) {
    'A' <= c <= 'Z'
  }

  /** `isPublicFunc`: a declaration is public (exported) when its name starts
      with an upper-case letter. */
  predicate IsPublicFunc(d: Decl)
    ensures IsPublicFunc(d) ==>
              d.name != [] && d.name[0] != '_' && !('a' <= d.name[0] <= 'z') && !('0' <= d.name[0] <= '9')
  {
    |d.name| > 0 && IsUpperAscii(d.name[0])
  }

  /** All parameter names of a signature, in order, grouping forgotten. */
  function AllNames(groups: seq<ParamGroup>): seq<string> {
    if groups == [] then [] else groups[0].names + AllNames(groups[1..])
  }

  /** The effective parameter count: every bound name counts once, whether
      its group is variadic or not, so the count is the number of names
      bound, however they are grouped. */
  function ParamCount(groups: seq<ParamGroup>): (r: nat)
    ensures r == |AllNames(groups)|
  {
    if groups == [] then 0 else |groups[0].names| + ParamCount(groups[1..])
  }

  /** The limit that applies to a declaration: the public limit for public
      declarations, the private one otherwise. */
  function Threshold(d: Decl, opts: Options): (r: int)
    ensures r == opts.paramLimitPublic || r == opts.paramLimitPrivate
    ensures opts.paramLimitPublic == opts.paramLimitPrivate ==> r == opts.paramLimitPublic
  {
    if IsPublicFunc(d) then opts.paramLimitPublic else opts.paramLimitPrivate
  }

  predicate Exceeds(d: Decl, opts: Options) {
    ParamCount(d.params) > Threshold(d, opts)
  }

  /** The issues one declaration contributes: none, or one. */
  function IssuesOf(d: Decl, opts: Options): seq<Issue> {
    if Exceeds(d, opts) then [IssueFor(d, opts)] else []
  }

  /** No declaration exceeds the limit of its class. */
  predicate AllWithinLimits(decls: seq<Decl>, opts: Options) {
    forall i :: 0 <= i < |decls| ==> !Exceeds(decls[i], opts)
  }

  function IssueFor(d: Decl, opts: Options): Issue {
    Issue(d.name, ParamCount(d.params), Threshold(d, opts))
  }

  /** `checkForParamLimit`: the issues of a file's declarations, in
      declaration order. */
  function CheckForParamLimit(decls: seq<Decl>, opts: Options): (r: seq<Issue>)
    ensures |r| <= |decls|
    ensures r == [] <==> AllWithinLimits(decls, opts)
    ensures forall k :: 0 <= k < |r| ==> r[k].count > r[k].threshold
  {
    if decls == [] then []
    else
      var rest := CheckForParamLimit(decls[1..], opts);
      if Exceeds(decls[0], opts) then [IssueFor(decls[0], opts)] + rest else rest
  }

  // ---------------------------------------------------------------------
  // Parameter counting

  /** Counting is additive over the parameter list. */
  lemma {:induction false} ParamCountAppend(a: seq<ParamGroup>, b: seq<ParamGroup>)
    ensures ParamCount(a + b) == ParamCount(a) + ParamCount(b)
  {
    if a == [] {
      assert a + b == b;
    } else {
      assert (a + b)[1..] == a[1..] + b;
      ParamCountAppend(a[1..], b);
    }
  }

  /** Two signatures that bind the same names in the same order have the
      same count: `a, b int` counts like `a int, b int`. */
  lemma RegroupingKeepsCount(a: seq<ParamGroup>, b: seq<ParamGroup>)
    requires AllNames(a) == AllNames(b)
    ensures ParamCount(a) == ParamCount(b)
  {
  }

  /** Marking a group variadic (or not) does not change the count. */
  lemma {:induction false} VariadicCountsLikeAnyGroup(groups: seq<ParamGroup>, k: nat, v: bool)
    requires k < |groups|
    ensures ParamCount(groups[k := groups[k].(variadic := v)]) == ParamCount(groups)
  {
    if k > 0 {
      assert groups[k := groups[k].(variadic := v)][1..] == groups[1..][k - 1 := groups[k].(variadic := v)];
      VariadicCountsLikeAnyGroup(groups[1..], k - 1, v);
    }
  }

  // ---------------------------------------------------------------------
  // Visibility

  /** Lower-case, underscore, digit and empty names are all private. */
  lemma PrivateUnlessUpperFirst(d: Decl)
    ensures |d.name| == 0 ==> !IsPublicFunc(d)
    ensures |d.name| > 0 && ('a' <= d.name[0] <= 'z' || d.name[0] == '_' || '0' <= d.name[0] <= '9')
            ==> !IsPublicFunc(d)
    ensures IsPublicFunc(d) <==> |d.name| > 0 && 'A' <= d.name[0] <= 'Z'
  {
  }

  /** Visibility depends on the first character only. */
  lemma VisibilityByFirstChar(d: Decl, e: Decl)
    requires |d.name| > 0 && |e.name| > 0 && d.name[0] == e.name[0]
    ensures IsPublicFunc(d) == IsPublicFunc(e)
  {
  }

  // ---------------------------------------------------------------------
  // The checker

  /** The issues of the first declaration, followed by those of the rest. */
  lemma CheckCons(decls: seq<Decl>, opts: Options)
    requires decls != []
    ensures CheckForParamLimit(decls, opts) == IssuesOf(decls[0], opts) + CheckForParamLimit(decls[1..], opts)
  {
  }

  /** Checking a file in two parts gives the issues of the first part
      followed by those of the second: issues follow declaration order and
      each declaration is judged on its own. */
  lemma {:induction false} CheckAppend(a: seq<Decl>, b: seq<Decl>, opts: Options)
    ensures CheckForParamLimit(a + b, opts) == CheckForParamLimit(a, opts) + CheckForParamLimit(b, opts)
  {
    if a == [] {
      assert a + b == b;
    } else {
      calc {
        CheckForParamLimit(a + b, opts);
      == { assert (a + b)[0] == a[0] && (a + b)[1..] == a[1..] + b; CheckCons(a + b, opts); }
        IssuesOf(a[0], opts) + CheckForParamLimit(a[1..] + b, opts);
      == { CheckAppend(a[1..], b, opts); }
        IssuesOf(a[0], opts) + (CheckForParamLimit(a[1..], opts) + CheckForParamLimit(b, opts));
      ==
        (IssuesOf(a[0], opts) + CheckForParamLimit(a[1..], opts)) + CheckForParamLimit(b, opts);
      == { CheckCons(a, opts); }
        CheckForParamLimit(a, opts) + CheckForParamLimit(b, opts);
      }
    }
  }

  /** A single declaration yields exactly one issue, carrying its count and
      the threshold of its class, when its count exceeds that threshold, and
      none otherwise. */
  lemma CheckSingle(d: Decl, opts: Options)
    ensures Exceeds(d, opts) ==> CheckForParamLimit([d], opts) == [Issue(d.name, ParamCount(d.params), Threshold(d, opts))]
    ensures !Exceeds(d, opts) ==> CheckForParamLimit([d], opts) == []
  {
    assert [d][1..] == [];
  }

  /** Every offending declaration is reported. */
  lemma {:induction false} CheckComplete(decls: seq<Decl>, opts: Options, i: nat)
    requires i < |decls| && Exceeds(decls[i], opts)
    ensures IssueFor(decls[i], opts) in CheckForParamLimit(decls, opts)
  {
    if i > 0 {
      CheckComplete(decls[1..], opts, i - 1);
    }
  }

  /** Every reported issue belongs to an offending declaration and carries
      its count and the threshold of its class. */
  lemma {:induction false} CheckSound(decls: seq<Decl>, opts: Options, issue: Issue)
    requires issue in CheckForParamLimit(decls, opts)
    ensures exists i :: 0 <= i < |decls| && Exceeds(decls[i], opts) && issue == IssueFor(decls[i], opts)
  {
    var rest := CheckForParamLimit(decls[1..], opts);
    if issue in rest {
      CheckSound(decls[1..], opts, issue);
      var i :| 0 <= i < |decls[1..]| && Exceeds(decls[1..][i], opts) && issue == IssueFor(decls[1..][i], opts);
      assert decls[1..][i] == decls[i + 1];
    } else {
      assert Exceeds(decls[0], opts) && issue == IssueFor(decls[0], opts);
    }
  }

  /** The checker is syntax-level only: two files whose declarations agree
      on names and parameters get the same issues, whatever the bodies say. */
  lemma {:induction false} CheckIgnoresBodies(a: seq<Decl>, b: seq<Decl>, opts: Options)
    requires |a| == |b|
    requires forall i :: 0 <= i < |a| ==> a[i].name == b[i].name && a[i].params == b[i].params
    ensures CheckForParamLimit(a, opts) == CheckForParamLimit(b, opts)
  {
    if a != [] {
      CheckIgnoresBodies(a[1..], b[1..], opts);
    }
  }

  /** Raising either limit never increases the number of issues. */
  lemma {:induction false} RaisingLimitsNeverAddsIssues(decls: seq<Decl>, lo: Options, hi: Options)
    requires lo.paramLimitPrivate <= hi.paramLimitPrivate
    requires lo.paramLimitPublic <= hi.paramLimitPublic
    ensures |CheckForParamLimit(decls, hi)| <= |CheckForParamLimit(decls, lo)|
  {
    if decls != [] {
      RaisingLimitsNeverAddsIssues(decls[1..], lo, hi);
    }
  }

  /** A limit left at the "unset" sentinel disables its class for every
      declaration with at most `math.MaxInt32` parameters. */
  lemma {:induction false} UnsetLimitsReportNothing(decls: seq<Decl>)
    requires forall i :: 0 <= i < |decls| ==> ParamCount(decls[i].params) <= Flags.MaxInt32
    ensures CheckForParamLimit(decls, Options(Flags.DefaultPrivateMax, Flags.DefaultPublicMax)) == []
  {
    if decls != [] {
      UnsetLimitsReportNothing(decls[1..]);
    }
  }

  /** A public limit left at the sentinel disables the public class: when no
      declaration has more than `math.MaxInt32` parameters, every issue names
      a private declaration and carries the private limit. */
  lemma UnsetPublicLimitDisablesPublic(decls: seq<Decl>, opts: Options, issue: Issue)
    requires opts.paramLimitPublic == Flags.MaxInt32
    requires forall i :: 0 <= i < |decls| ==> ParamCount(decls[i].params) <= Flags.MaxInt32
    requires issue in CheckForParamLimit(decls, opts)
    ensures !(|issue.name| > 0 && IsUpperAscii(issue.name[0]))
    ensures issue.threshold == opts.paramLimitPrivate
  {
    CheckSound(decls, opts, issue);
  }

  /** A private limit left at the sentinel disables the private class: when
      no declaration has more than `math.MaxInt32` parameters, every issue
      names a public declaration and carries the public limit. */
  lemma UnsetPrivateLimitDisablesPrivate(decls: seq<Decl>, opts: Options, issue: Issue)
    requires opts.paramLimitPrivate == Flags.MaxInt32
    requires forall i :: 0 <= i < |decls| ==> ParamCount(decls[i].params) <= Flags.MaxInt32
    requires issue in CheckForParamLimit(decls, opts)
    ensures |issue.name| > 0 && IsUpperAscii(issue.name[0])
    ensures issue.threshold == opts.paramLimitPublic
  {
    CheckSound(decls, opts, issue);
  }

  // ---------------------------------------------------------------------
  // The scenarios of the test suite, on already-parsed declarations

  function Group(names: seq<string>): ParamGroup { ParamGroup(names, false) }
  function Variadic(name: string): ParamGroup { ParamGroup([name], true) }

  /** `localFunction(a, b int)` has two parameters: limits 2/2 give no issue. */
  lemma GroupedPairWithinLimit()
    ensures CheckForParamLimit([Decl("localFunction", [Group(["a", "b"])], "return a + b")], Options(2, 2)) == []
  {
    CheckSingle(Decl("localFunction", [Group(["a", "b"])], "return a + b"), Options(2, 2));
  }

  /** `localFunction(a ...int)` has one parameter: limits 1/1 give no issue,
      although the body names `b` and `c`, which are not declared. */
  lemma LoneVariadicWithinLimit()
    ensures CheckForParamLimit([Decl("localFunction", [Variadic("a")], "return a + b + c")], Options(1, 1)) == []
  {
    CheckSingle(Decl("localFunction", [Variadic("a")], "return a + b + c"), Options(1, 1));
  }

  /** `localFunction(a int, b string)` exceeds the limit 1: one issue. */
  lemma DistinctPairOverLimit()
    ensures |CheckForParamLimit([Decl("localFunction", [Group(["a"]), Group(["b"])], "return a + len(b)")], Options(1, 1))| == 1
  {
    CheckSingle(Decl("localFunction", [Group(["a"]), Group(["b"])], "return a + len(b)"), Options(1, 1));
  }

  /** `localFunction(a, b, c int)` exceeds the limit 1 by two, yet gives one
      issue, with count 3. */
  lemma GroupedTripleOverLimit()
    ensures CheckForParamLimit([Decl("localFunction", [Group(["a", "b", "c"])], "return a + b + c")], Options(1, 1))
            == [Issue("localFunction", 3, 1)]
  {
    CheckSingle(Decl("localFunction", [Group(["a", "b", "c"])], "return a + b + c"), Options(1, 1));
  }

  /** `localFunction(a int, b ...int)` counts 2, the variadic parameter
      included: one issue against the limit 1. */
  lemma TrailingVariadicOverLimit()
    ensures CheckForParamLimit([Decl("localFunction", [Group(["a"]), Variadic("b")], "return a + b + c")], Options(1, 1))
            == [Issue("localFunction", 2, 1)]
  {
    CheckSingle(Decl("localFunction", [Group(["a"]), Variadic("b")], "return a + b + c"), Options(1, 1));
  }

  /** Private limit 2, public limit 1: of `localFunctionFoo(a int, b uint)`,
      `localFunctionBar(a int, b uint, c string)`, `PublicFunctionFoo(a int)`
      and `PublicFunctionBar(a int, b string)`, the second and the fourth
      are reported, in that order. */
  lemma SeparatePublicAndPrivateLimits()
    ensures CheckForParamLimit(
              [ Decl("localFunctionFoo", [Group(["a"]), Group(["b"])], "return a + int(b)"),
                Decl("localFunctionBar", [Group(["a"]), Group(["b"]), Group(["c"])], "return len(c) > localFunctionFoo(a, b)"),
                Decl("PublicFunctionFoo", [Group(["a"])], "return a + 1"),
                Decl("PublicFunctionBar", [Group(["a"]), Group(["b"])], "return len(b) > a") ],
              Options(2, 1))
            == [Issue("localFunctionBar", 3, 2), Issue("PublicFunctionBar", 2, 1)]
  {
    var d0 := Decl("localFunctionFoo", [Group(["a"]), Group(["b"])], "return a + int(b)");
    var d1 := Decl("localFunctionBar", [Group(["a"]), Group(["b"]), Group(["c"])], "return len(c) > localFunctionFoo(a, b)");
    var d2 := Decl("PublicFunctionFoo", [Group(["a"])], "return a + 1");
    var d3 := Decl("PublicFunctionBar", [Group(["a"]), Group(["b"])], "return len(b) > a");
    var opts := Options(2, 1);
    assert ParamCount(d0.params) == 2 && !IsPublicFunc(d0);
    assert ParamCount(d1.params) == 3 && !IsPublicFunc(d1);
    assert ParamCount(d2.params) == 1 && IsPublicFunc(d2);
    assert ParamCount(d3.params) == 2 && IsPublicFunc(d3);
    CheckSingle(d0, opts);
    CheckSingle(d1, opts);
    CheckSingle(d2, opts);
    CheckSingle(d3, opts);
    CheckAppend([d0, d1], [d2, d3], opts);
    CheckAppend([d0], [d1], opts);
    CheckAppend([d2], [d3], opts);
    assert [d0, d1] + [d2, d3] == [d0, d1, d2, d3];
  }

  /** `localFunction` and `_localFunction` are private; `PublicFunction` is public. */
  lemma VisibilityOfTestNames()
    ensures !IsPublicFunc(Decl("localFunction", [], ""))
    ensures IsPublicFunc(Decl("PublicFunction", [], ""))
    ensures !IsPublicFunc(Decl("_localFunction", [], ""))
  {
  }
}
