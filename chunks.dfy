/**
 * `manualChunks(id)` of vite.config.js: the bundle chunk a module id goes
 * to, decided by an ordered list of substring tests where the first test
 * that succeeds wins.
 */
module Chunks {
  import opened JsValues
  import Strings

  /** One `if` of the chain: the substrings it tests with `||`, and the chunk it returns. */
  datatype Rule = Rule(patterns: seq<string>, chunk: string)

  /** The chain of tests, in source order (lines 27-53). */
  const Rules: seq<Rule> := [
    Rule(["react", "react-dom", "react-router"], "react-vendor"),
    Rule(["recharts"], "chart-vendor"),
    Rule(["ag-grid"], "grid-vendor"),
    Rule(["@hookform", "react-hook-form", "zod"], "form-vendor"),
    Rule(["lucide-react"], "icons-vendor"),
    Rule(["zustand"], "state-vendor"),
    Rule(["clsx", "axios", "sweetalert2"], "utils-vendor")
  ]

  /** The seven chunk names. */
  const ChunkNames: set<string> :=
    {"react-vendor", "chart-vendor", "grid-vendor", "form-vendor", "icons-vendor", "state-vendor", "utils-vendor"}

  /** `id.includes(p1) || id.includes(p2) || ...` */
  predicate AnyIn(id: string, patterns: seq<string>)
  {
    |patterns| > 0 && (Strings.Contains(id, patterns[0]) || AnyIn(id, patterns[1..]))
  }

  /** The chunk of the first rule whose test succeeds; `None` (`undefined`) when none does. */
  function FirstMatch(rules: seq<Rule>, id: string): (r: Option<string>)
    ensures r.None? <==> forall i :: 0 <= i < |rules| ==> !AnyIn(id, rules[i].patterns)
    ensures r.Some? ==> exists i :: 0 <= i < |rules| && AnyIn(id, rules[i].patterns) && r.value == rules[i].chunk &&
                                    (forall j :: 0 <= j < i ==> !AnyIn(id, rules[j].patterns))
  {
    if rules == [] then None
    else if AnyIn(id, rules[0].patterns) then Some(rules[0].chunk)
    else
      var r := FirstMatch(rules[1..], id);
      assert forall i :: 1 <= i < |rules| ==> rules[i] == rules[1..][i - 1];
      r
  }

  /** `manualChunks(id)` (lines 25-54). */
  function ManualChunks(id: string): (r: Option<string>)
    ensures r.Some? ==> r.value in ChunkNames
  {
    FirstMatch(Rules, id)
  }

  /** A pattern that holds another: every id holding the first holds the second. */
  lemma PatternHolds(id: string, longer: string, shorter: string, at: nat)
    requires at + |shorter| <= |longer| && longer[at..at + |shorter|] == shorter
    requires Strings.Contains(id, longer)
    ensures Strings.Contains(id, shorter)
  {
    Strings.ContainsAt(longer, shorter, at);
    Strings.ContainsTrans(id, longer, shorter);
  }

  /** Any id containing `react` anywhere goes to `react-vendor`: that test runs first. */
  lemma ReactFirst(id: string)
    requires Strings.Contains(id, "react")
    ensures ManualChunks(id) == Some("react-vendor")
  {
    assert Rules[0].patterns == ["react", "react-dom", "react-router"];
  }

  /** Every other React pattern holds `react`, so those ids are all caught by the first test. */
  lemma ReactPatternsShadowed(id: string)
    requires Strings.Contains(id, "react-dom") || Strings.Contains(id, "react-router") ||
             Strings.Contains(id, "react-hook-form") || Strings.Contains(id, "lucide-react")
    ensures ManualChunks(id) == Some("react-vendor")
  {
    ShadowedHoldReact(id);
    ReactFirst(id);
  }

  /** A test that fails can be taken out of the chain without changing any result. */
  lemma {:induction false} DropFailingRule(rules: seq<Rule>, k: nat, id: string)
    requires k < |rules| && !AnyIn(id, rules[k].patterns)
    ensures FirstMatch(rules, id) == FirstMatch(rules[..k] + rules[k + 1..], id)
  {
    var dropped := rules[..k] + rules[k + 1..];
    if k == 0 {
      assert dropped == rules[1..];
    } else {
      assert dropped[0] == rules[0];
      assert dropped[1..] == rules[1..][..k - 1] + rules[1..][k..];
      if !AnyIn(id, rules[0].patterns) {
        DropFailingRule(rules[1..], k - 1, id);
      }
    }
  }

  /** Two chains whose tests succeed on the same positions and name the same chunks agree. */
  lemma {:induction false} SameOutcomes(a: seq<Rule>, b: seq<Rule>, id: string)
    requires |a| == |b|
    requires forall i :: 0 <= i < |a| ==> a[i].chunk == b[i].chunk && (AnyIn(id, a[i].patterns) <==> AnyIn(id, b[i].patterns))
    ensures FirstMatch(a, id) == FirstMatch(b, id)
  {
    if a != [] && !AnyIn(id, a[0].patterns) {
      SameOutcomes(a[1..], b[1..], id);
    }
  }

  /** Each shadowed pattern holds `react`. */
  lemma ShadowedHoldReact(id: string)
    ensures Strings.Contains(id, "react-dom") ==> Strings.Contains(id, "react")
    ensures Strings.Contains(id, "react-router") ==> Strings.Contains(id, "react")
    ensures Strings.Contains(id, "react-hook-form") ==> Strings.Contains(id, "react")
    ensures Strings.Contains(id, "lucide-react") ==> Strings.Contains(id, "react")
  {
    if Strings.Contains(id, "react-dom") { PatternHolds(id, "react-dom", "react", 0); }
    if Strings.Contains(id, "react-router") { PatternHolds(id, "react-router", "react", 0); }
    if Strings.Contains(id, "react-hook-form") { PatternHolds(id, "react-hook-form", "react", 0); }
    if Strings.Contains(id, "lucide-react") {
      var longer := "lucide-" + "react";
      assert longer[7..7 + 5] == "react";
      assert longer == "lucide-react";
      PatternHolds(id, longer, "react", 7);
    }
  }

  /** The same chain with every shadowed test taken out: no `icons-vendor` rule is left. */
  const ReducedRules: seq<Rule> := [
    Rule(["react"], "react-vendor"),
    Rule(["recharts"], "chart-vendor"),
    Rule(["ag-grid"], "grid-vendor"),
    Rule(["@hookform", "zod"], "form-vendor"),
    Rule(["zustand"], "state-vendor"),
    Rule(["clsx", "axios", "sweetalert2"], "utils-vendor")
  ]

  /** Without `react` in the id, the chain minus its icon test and the reduced chain agree test by test. */
  lemma AgreeWithoutReact(id: string)
    requires !Strings.Contains(id, "react")
    ensures FirstMatch(Rules[..4] + Rules[5..], id) == FirstMatch(ReducedRules, id)
  {
    ShadowedHoldReact(id);
    var kept := Rules[..4] + Rules[5..];
    assert kept == [Rules[0], Rules[1], Rules[2], Rules[3], Rules[5], Rules[6]];
    forall i | 0 <= i < |kept|
      ensures kept[i].chunk == ReducedRules[i].chunk
      ensures AnyIn(id, kept[i].patterns) <==> AnyIn(id, ReducedRules[i].patterns)
    {
      if i == 0 {
        var rest := kept[0].patterns[1..];
        assert rest == ["react-dom", "react-router"] && rest[1..] == ["react-router"] && rest[1..][1..] == [];
        assert !Strings.Contains(id, "react-dom") && !Strings.Contains(id, "react-router");
        assert !AnyIn(id, rest[1..][1..]);
        assert !AnyIn(id, rest[1..]);
        assert !AnyIn(id, rest);
      } else if i == 3 {
        assert kept[3].patterns == ["@hookform", "react-hook-form", "zod"];
        assert kept[3].patterns[1..][1..] == ReducedRules[3].patterns[1..];
      } else {
        assert kept[i] == ReducedRules[i];
      }
    }
    SameOutcomes(kept, ReducedRules, id);
  }

  /** A test with no succeeding pattern fails. */
  lemma {:induction false} NoneIn(id: string, patterns: seq<string>)
    requires forall k :: 0 <= k < |patterns| ==> !Strings.Contains(id, patterns[k])
    ensures !AnyIn(id, patterns)
  {
    if patterns != [] {
      NoneIn(id, patterns[1..]);
    }
  }

  /** A test with one succeeding pattern succeeds. */
  lemma {:induction false} SomeIn(id: string, patterns: seq<string>, k: nat)
    requires k < |patterns| && Strings.Contains(id, patterns[k])
    ensures AnyIn(id, patterns)
  {
    if k > 0 {
      SomeIn(id, patterns[1..], k - 1);
    }
  }

  /** A chain none of whose rules names `chunk` never returns it. */
  lemma NeverChunk(rules: seq<Rule>, chunk: string, id: string)
    requires forall i :: 0 <= i < |rules| ==> rules[i].chunk != chunk
    ensures FirstMatch(rules, id) != Some(chunk)
  {
  }

  /** The icon test fails on every id without `react`. */
  lemma IconsTestFails(id: string)
    requires !Strings.Contains(id, "react")
    ensures !AnyIn(id, Rules[4].patterns)
  {
    ShadowedHoldReact(id);
    NoneIn(id, Rules[4].patterns);
  }

  /** In the reduced chain too, `react` is tested first. */
  lemma ReducedReactFirst(id: string)
    requires Strings.Contains(id, "react")
    ensures FirstMatch(ReducedRules, id) == Some("react-vendor")
  {
    SomeIn(id, ReducedRules[0].patterns, 0);
  }

  /** The shadowed tests are dead: the reduced chain sends every id to the same chunk. */
  lemma ShadowedTestsAreDead(id: string)
    ensures ManualChunks(id) == FirstMatch(ReducedRules, id)
  {
    if Strings.Contains(id, "react") {
      ReactFirst(id);
      ReducedReactFirst(id);
    } else {
      IconsTestFails(id);
      DropFailingRule(Rules, 4, id);
      AgreeWithoutReact(id);
    }
  }

  /** No rule of the reduced chain names `icons-vendor`. */
  lemma ReducedHasNoIcons()
    ensures forall i :: 0 <= i < |ReducedRules| ==> ReducedRules[i].chunk != "icons-vendor"
  {
  }

  /** No id ever reaches `icons-vendor`. */
  lemma IconsUnreachable(id: string)
    ensures ManualChunks(id) != Some("icons-vendor")
  {
    ShadowedTestsAreDead(id);
    ReducedHasNoIcons();
    NeverChunk(ReducedRules, "icons-vendor", id);
  }

  /** Tests that all fail can be skipped. */
  lemma {:induction false} SkipFailing(rules: seq<Rule>, k: nat, id: string)
    requires k <= |rules|
    requires forall i :: 0 <= i < k ==> !AnyIn(id, rules[i].patterns)
    ensures FirstMatch(rules, id) == FirstMatch(rules[k..], id)
  {
    if k > 0 {
      SkipFailing(rules[1..], k - 1, id);
      assert rules[1..][k - 1..] == rules[k..];
    }
  }

  /** Without `react`, `recharts` or `ag-grid`, the first three reduced tests fail. */
  lemma FirstThreeFail(id: string)
    requires !Strings.Contains(id, "react") && !Strings.Contains(id, "recharts") && !Strings.Contains(id, "ag-grid")
    ensures forall i :: 0 <= i < 3 ==> !AnyIn(id, ReducedRules[i].patterns)
  {
    NoneIn(id, ReducedRules[0].patterns);
    NoneIn(id, ReducedRules[1].patterns);
    NoneIn(id, ReducedRules[2].patterns);
  }

  /** The form test of the reduced chain, when it succeeds, names `form-vendor`. */
  lemma FormRuleHolds(id: string)
    requires Strings.Contains(id, "@hookform") || Strings.Contains(id, "zod")
    ensures FirstMatch(ReducedRules[3..], id) == Some("form-vendor")
  {
    var p := ReducedRules[3].patterns;
    if Strings.Contains(id, "@hookform") {
      SomeIn(id, p, 0);
    } else {
      SomeIn(id, p, 1);
    }
  }

  /** Ids with `@hookform` or `zod` and none of the earlier patterns go to `form-vendor`. */
  lemma FormVendor(id: string)
    requires Strings.Contains(id, "@hookform") || Strings.Contains(id, "zod")
    requires !Strings.Contains(id, "react") && !Strings.Contains(id, "recharts") && !Strings.Contains(id, "ag-grid")
    ensures ManualChunks(id) == Some("form-vendor")
  {
    ShadowedTestsAreDead(id);
    FirstThreeFail(id);
    SkipFailing(ReducedRules, 3, id);
    FormRuleHolds(id);
  }

  /** Without any pattern of the first five reduced tests, all five fail. */
  lemma FirstFiveFail(id: string)
    requires !Strings.Contains(id, "react") && !Strings.Contains(id, "recharts") && !Strings.Contains(id, "ag-grid")
    requires !Strings.Contains(id, "@hookform") && !Strings.Contains(id, "zod") && !Strings.Contains(id, "zustand")
    ensures forall i :: 0 <= i < 5 ==> !AnyIn(id, ReducedRules[i].patterns)
  {
    FirstThreeFail(id);
    NoneIn(id, ReducedRules[3].patterns);
    NoneIn(id, ReducedRules[4].patterns);
  }

  /** The utilities test of the reduced chain, when it succeeds, names `utils-vendor`. */
  lemma UtilsRuleHolds(id: string)
    requires Strings.Contains(id, "clsx") || Strings.Contains(id, "axios") || Strings.Contains(id, "sweetalert2")
    ensures FirstMatch(ReducedRules[5..], id) == Some("utils-vendor")
  {
    var p := ReducedRules[5].patterns;
    if Strings.Contains(id, "clsx") {
      SomeIn(id, p, 0);
    } else if Strings.Contains(id, "axios") {
      SomeIn(id, p, 1);
    } else {
      SomeIn(id, p, 2);
    }
  }

  /** Ids with `clsx`, `axios` or `sweetalert2` and no earlier pattern go to `utils-vendor`. */
  lemma UtilsVendor(id: string)
    requires Strings.Contains(id, "clsx") || Strings.Contains(id, "axios") || Strings.Contains(id, "sweetalert2")
    requires !Strings.Contains(id, "react") && !Strings.Contains(id, "recharts") && !Strings.Contains(id, "ag-grid")
    requires !Strings.Contains(id, "@hookform") && !Strings.Contains(id, "zod") && !Strings.Contains(id, "zustand")
    ensures ManualChunks(id) == Some("utils-vendor")
  {
    ShadowedTestsAreDead(id);
    FirstFiveFail(id);
    SkipFailing(ReducedRules, 5, id);
    UtilsRuleHolds(id);
  }
}
