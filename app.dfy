/** The page shell of src/App.jsx: a background gradient class chosen from an
    OpenWeatherMap icon code by `handleWeatherChange`. */
module AppTheme {
  import opened Wrappers
  import opened Strings

  /** The seven backgrounds the page can show. */
  datatype Theme = Clear | Clouds | Rain | Thunderstorm | Snow | Mist | Default

  /** The Tailwind gradient classes passed to `setBgClass` for each theme. */
  function Gradient(t: Theme): string {
    match t
    case Clear => "from-blue-400 via-blue-500 to-blue-600"
    case Clouds => "from-gray-400 via-gray-500 to-gray-600"
    case Rain => "from-gray-700 via-gray-800 to-gray-900"
    case Thunderstorm => "from-slate-900 via-purple-900 to-slate-900"
    case Snow => "from-blue-100 via-blue-200 to-blue-300 text-gray-800"
    case Mist => "from-gray-500 via-gray-400 to-gray-500"
    case Default => "from-gray-900 via-purple-900 to-indigo-900"
  }

  /** The value `bgClass` starts with. */
  const InitialBgClass: string := "from-gray-900 via-purple-900 to-indigo-900"

  /** The `if / else if` chain of `includes` tests, applied to the lower-cased code. */
  function Classify(code: string): Theme {
    if Contains(code, "01") then Clear
    else if Contains(code, "02") || Contains(code, "03") || Contains(code, "04") then Clouds
    else if Contains(code, "09") || Contains(code, "10") then Rain
    else if Contains(code, "11") then Thunderstorm
    else if Contains(code, "13") then Snow
    else if Contains(code, "50") then Mist
    else Default
  }

  // ---------------------------------------------------------------------------
  // An independent reading of the chain: an ordered rule table, first match wins.

  /** Each rule names a theme and the substrings that select it, in priority order. */
  const Rules: seq<(Theme, seq<string>)> := [
    (Clear, ["01"]),
    (Clouds, ["02", "03", "04"]),
    (Rain, ["09", "10"]),
    (Thunderstorm, ["11"]),
    (Snow, ["13"]),
    (Mist, ["50"])
  ]

  /** The code contains at least one of the patterns. */
  predicate MatchesAny(code: string, patterns: seq<string>) {
    exists k :: 0 <= k < |patterns| && Contains(code, patterns[k])
  }

  /** The theme of the first rule the code matches, or `Default` when none does. */
  function FirstMatch(code: string, rules: seq<(Theme, seq<string>)>): Theme {
    if rules == [] then Default
    else if MatchesAny(code, rules[0].1) then rules[0].0
    else FirstMatch(code, rules[1..])
  }

  lemma MatchesAny1(code: string, a: string)
    ensures MatchesAny(code, [a]) <==> Contains(code, a)
  {
    if Contains(code, a) {
      assert [a][0] == a;
    }
  }

  lemma MatchesAny2(code: string, a: string, b: string)
    ensures MatchesAny(code, [a, b]) <==> Contains(code, a) || Contains(code, b)
  {
    if Contains(code, a) {
      assert [a, b][0] == a;
    } else if Contains(code, b) {
      assert [a, b][1] == b;
    }
  }

  lemma MatchesAny3(code: string, a: string, b: string, c: string)
    ensures MatchesAny(code, [a, b, c]) <==> Contains(code, a) || Contains(code, b) || Contains(code, c)
  {
    if Contains(code, a) {
      assert [a, b, c][0] == a;
    } else if Contains(code, b) {
      assert [a, b, c][1] == b;
    } else if Contains(code, c) {
      assert [a, b, c][2] == c;
    }
  }

  /** The hand-written chain is exactly the first-match reading of the rule table. */
  lemma ClassifyIsFirstMatch(code: string)
    ensures Classify(code) == FirstMatch(code, Rules)
  {
    MatchesAny1(code, "01");
    MatchesAny3(code, "02", "03", "04");
    MatchesAny2(code, "09", "10");
    MatchesAny1(code, "11");
    MatchesAny1(code, "13");
    MatchesAny1(code, "50");
    var r := Rules;
    assert r[6..] == [];
    assert r[5..][1..] == r[6..];
    assert FirstMatch(code, r[5..]) == if MatchesAny(code, ["50"]) then Mist else Default;
    assert r[4..][1..] == r[5..];
    assert FirstMatch(code, r[4..]) == if MatchesAny(code, ["13"]) then Snow else FirstMatch(code, r[5..]);
    assert r[3..][1..] == r[4..];
    assert FirstMatch(code, r[3..]) == if MatchesAny(code, ["11"]) then Thunderstorm else FirstMatch(code, r[4..]);
    assert r[2..][1..] == r[3..];
    assert FirstMatch(code, r[2..]) == if MatchesAny(code, ["09", "10"]) then Rain else FirstMatch(code, r[3..]);
    assert r[1..][1..] == r[2..];
    assert FirstMatch(code, r[1..]) == if MatchesAny(code, ["02", "03", "04"]) then Clouds else FirstMatch(code, r[2..]);
  }

  /** Priority: rule `j` decides the theme exactly when the code matches it and no
      earlier rule. */
  lemma {:induction false} FirstMatchPriority(code: string, rules: seq<(Theme, seq<string>)>, j: nat)
    requires j < |rules|
    requires forall a, b :: 0 <= a < b < |rules| ==> rules[a].0 != rules[b].0
    requires forall a :: 0 <= a < |rules| ==> rules[a].0 != Default
    ensures FirstMatch(code, rules) == rules[j].0 <==>
      MatchesAny(code, rules[j].1) && forall i :: 0 <= i < j ==> !MatchesAny(code, rules[i].1)
  {
    if j == 0 {
      if !MatchesAny(code, rules[0].1) {
        FirstMatchIsRuleOrDefault(code, rules[1..]);
        forall k | 0 <= k < |rules[1..]| ensures rules[1..][k].0 != rules[0].0 {
          assert rules[1..][k] == rules[k + 1];
        }
      }
    } else {
      FirstMatchPriority(code, rules[1..], j - 1);
      assert rules[1..][j - 1] == rules[j];
      if !MatchesAny(code, rules[0].1) {
        assert (forall i :: 0 <= i < j - 1 ==> !MatchesAny(code, rules[1..][i].1)) <==>
               (forall i :: 0 <= i < j ==> !MatchesAny(code, rules[i].1)) by {
          forall i | 1 <= i < j ensures rules[1..][i - 1] == rules[i] { }
        }
      }
    }
  }

  /** The first-match result is one of the rules' themes or `Default`. */
  lemma {:induction false} FirstMatchIsRuleOrDefault(code: string, rules: seq<(Theme, seq<string>)>)
    ensures FirstMatch(code, rules) == Default ||
      exists k :: 0 <= k < |rules| && rules[k].0 == FirstMatch(code, rules)
  {
    if rules != [] && !MatchesAny(code, rules[0].1) {
      FirstMatchIsRuleOrDefault(code, rules[1..]);
      if FirstMatch(code, rules[1..]) != Default {
        var k :| 0 <= k < |rules[1..]| && rules[1..][k].0 == FirstMatch(code, rules[1..]);
        assert rules[k + 1].0 == FirstMatch(code, rules);
      }
    } else if rules != [] {
      assert rules[0].0 == FirstMatch(code, rules);
    }
  }

  /** `Default` is returned exactly when no rule matches. */
  lemma {:induction false} FirstMatchDefault(code: string, rules: seq<(Theme, seq<string>)>)
    requires forall a :: 0 <= a < |rules| ==> rules[a].0 != Default
    ensures FirstMatch(code, rules) == Default <==>
      forall j :: 0 <= j < |rules| ==> !MatchesAny(code, rules[j].1)
  {
    if rules != [] {
      FirstMatchDefault(code, rules[1..]);
      assert forall j :: 1 <= j < |rules| ==> rules[1..][j - 1] == rules[j];
    }
  }

  // ---------------------------------------------------------------------------
  // What the chain promises, stated on the rule table.

  /** The rule table lists six distinct themes, none of them `Default`. */
  lemma RulesDistinct()
    ensures forall a, b :: 0 <= a < b < |Rules| ==> Rules[a].0 != Rules[b].0
    ensures forall a :: 0 <= a < |Rules| ==> Rules[a].0 != Default
  {
  }

  /** Rule `j` (clear, clouds, rain, thunderstorm, snow, mist in that order) decides
      the theme exactly when the code contains one of its substrings and none of the
      substrings of an earlier rule. */
  lemma ClassifyPriority(code: string, j: nat)
    requires j < |Rules|
    ensures Classify(code) == Rules[j].0 <==>
      MatchesAny(code, Rules[j].1) && forall i :: 0 <= i < j ==> !MatchesAny(code, Rules[i].1)
  {
    RulesDistinct();
    ClassifyIsFirstMatch(code);
    FirstMatchPriority(code, Rules, j);
  }

  /** Every code that contains none of the ten substrings gets the default gradient,
      and only those. */
  lemma ClassifyDefaultIff(code: string)
    ensures Classify(code) == Default <==>
      forall j :: 0 <= j < |Rules| ==> !MatchesAny(code, Rules[j].1)
  {
    RulesDistinct();
    ClassifyIsFirstMatch(code);
    FirstMatchDefault(code, Rules);
  }

  /** Lower-casing never changes the theme: the chain only looks for digits. */
  lemma ClassifyCaseInsensitive(raw: string)
    ensures Classify(ToLower(raw)) == Classify(raw)
  {
    ContainsToLower(raw, "01");
    ContainsToLower(raw, "02");
    ContainsToLower(raw, "03");
    ContainsToLower(raw, "04");
    ContainsToLower(raw, "09");
    ContainsToLower(raw, "10");
    ContainsToLower(raw, "11");
    ContainsToLower(raw, "13");
    ContainsToLower(raw, "50");
  }

  /** Each theme has its own gradient, so `bgClass` names exactly one theme. */
  lemma GradientInjective(a: Theme, b: Theme)
    ensures Gradient(a) == Gradient(b) <==> a == b
  {
    assert Gradient(Clear) != Gradient(Clouds);
    assert Gradient(Clear) != Gradient(Rain);
    assert Gradient(Clear) != Gradient(Thunderstorm);
    assert Gradient(Clear) != Gradient(Snow);
    assert Gradient(Clear) != Gradient(Mist);
    assert Gradient(Clear) != Gradient(Default);
    assert Gradient(Clouds) != Gradient(Rain);
    assert Gradient(Clouds) != Gradient(Thunderstorm);
    assert Gradient(Clouds) != Gradient(Snow);
    assert Gradient(Clouds) != Gradient(Mist);
    assert Gradient(Clouds) != Gradient(Default);
    assert Gradient(Rain) != Gradient(Thunderstorm);
    assert Gradient(Rain) != Gradient(Snow);
    assert Gradient(Rain) != Gradient(Mist);
    assert Gradient(Rain) != Gradient(Default);
    assert Gradient(Thunderstorm) != Gradient(Snow);
    assert Gradient(Thunderstorm) != Gradient(Mist);
    assert Gradient(Thunderstorm) != Gradient(Default);
    assert Gradient(Snow) != Gradient(Mist);
    assert Gradient(Snow) != Gradient(Default);
    assert Gradient(Mist) != Gradient(Default);
  }

  /** "010" contains both "01" and "10": the earlier clear rule wins over rain. */
  lemma ClearWinsExample()
    ensures Classify("010") == Clear
  {
    PairsInThree("010");
  }

  /** Matches are found anywhere in the code, not only at its start. */
  lemma SubstringExample()
    ensures Classify("x13") == Snow
  {
    PairsInThree("x13");
  }

  /** "04n" (broken clouds, night) gets the clouds gradient. */
  lemma CloudsExample()
    ensures Classify("04n") == Clouds
  {
    PairsInThree("04n");
  }

  /** "10d" (rain, day) gets the rain gradient. */
  lemma RainExample()
    ensures Classify("10d") == Rain
  {
    PairsInThree("10d");
  }

  /** "11d" (thunderstorm) passes the three earlier rules and gets its own gradient. */
  lemma ThunderstormExample()
    ensures Classify("11d") == Thunderstorm
  {
    PairsInThree("11d");
  }

  /** "50n" (mist) is decided by the last rule. */
  lemma MistExample()
    ensures Classify("50n") == Mist
  {
    PairsInThree("50n");
  }

  /** A code with none of the listed digit pairs gets the default gradient. */
  lemma DefaultExample()
    ensures Classify("abc") == Default
  {
    PairsInThree("abc");
  }

  lemma PairsInThree(s: string)
    requires |s| == 3
    ensures forall p :: |p| == 2 ==>
      (Contains(s, p) <==> (s[0] == p[0] && s[1] == p[1]) || (s[1] == p[0] && s[2] == p[1]))
  {
    forall p | |p| == 2
      ensures Contains(s, p) <==> (s[0] == p[0] && s[1] == p[1]) || (s[1] == p[0] && s[2] == p[1])
    {
      ContainsInThree(s, p);
      assert s[0..2] == p <==> s[0] == p[0] && s[1] == p[1];
      assert s[1..3] == p <==> s[1] == p[0] && s[2] == p[1];
    }
  }

  /** A two-character pattern occurs in a three-character code at position 0 or 1. */
  lemma ContainsInThree(s: string, p: string)
    requires |s| == 3 && |p| == 2
    ensures Contains(s, p) <==> s[0..2] == p || s[1..3] == p
  {
    ContainsIffOccurs(s, p);
    if s[0..2] == p {
      assert OccursAt(s, p, 0);
    } else if s[1..3] == p {
      assert OccursAt(s, p, 1);
    }
  }

  // ---------------------------------------------------------------------------
  // The page component and its `bgClass` state.

  class App {
    var bgClass: string

    /** `bgClass` always holds one of the seven gradients. */
    ghost predicate Valid()
      reads this
    {
      exists t :: bgClass == Gradient(t)
    }

    /** `useState` with the default gradient. */
    constructor ()
      ensures Valid()
      ensures bgClass == InitialBgClass && bgClass == Gradient(Default)
    {
      bgClass := InitialBgClass;
      new;
      assert bgClass == Gradient(Default);
    }

    /** `handleWeatherChange`: a missing or empty code returns early; any other code
        sets the gradient of its theme, whatever its letter case. */
    method HandleWeatherChange(weatherCode: Option<string>)
      requires Valid()
      modifies this
      ensures Valid()
      ensures weatherCode == None || weatherCode == Some("") ==> bgClass == old(bgClass)
      ensures weatherCode.Some? && weatherCode.value != "" ==>
        bgClass == Gradient(Classify(weatherCode.value))
    {
      if weatherCode == None {
        return;
      }
      var code := ToLower(weatherCode.value);
      if code == "" {
        return;
      }
      ClassifyCaseInsensitive(weatherCode.value);
      var theme := Classify(code);
      bgClass := Gradient(theme);
    }
  }
}
