/**
 * The two MET code mappers as ordered rule lists: each if-chain of the
 * source is first-match over its list of (keyword, result) rules,
 * `IconRules` or `DescriptionRules`, in the order the chain tests them.
 */
module MapperRules {
  import opened Options
  import opened Text
  import opened WeatherCodes

  /** The result of the first rule whose keyword `code` contains, or `default` when none matches. */
  function FirstMatch<T>(code: string, rules: seq<(string, T)>, default: T): T {
    if rules == [] then default
    else if Contains(code, rules[0].0) then rules[0].1
    else FirstMatch(code, rules[1..], default)
  }

  /** First match wins: a rule whose keyword occurs, with no earlier keyword occurring, decides the result. */
  lemma {:induction false} FirstRuleDecides<T>(code: string, rules: seq<(string, T)>, default: T, k: nat)
    requires k < |rules| && Contains(code, rules[k].0)
    requires forall j :: 0 <= j < k ==> !Contains(code, rules[j].0)
    ensures FirstMatch(code, rules, default) == rules[k].1
  {
    if k > 0 {
      assert !Contains(code, rules[0].0);
      var tail := rules[1..];
      assert tail[k - 1] == rules[k];
      forall j | 0 <= j < k - 1 ensures !Contains(code, tail[j].0) {
        assert tail[j] == rules[j + 1];
      }
      FirstRuleDecides(code, tail, default, k - 1);
    }
  }

  /** When no keyword occurs, the default decides. */
  lemma {:induction false} NoRuleDefault<T>(code: string, rules: seq<(string, T)>, default: T)
    requires forall k :: 0 <= k < |rules| ==> !Contains(code, rules[k].0)
    ensures FirstMatch(code, rules, default) == default
  {
    if rules != [] {
      assert !Contains(code, rules[0].0);
      var tail := rules[1..];
      forall j | 0 <= j < |tail| ensures !Contains(code, tail[j].0) {
        assert tail[j] == rules[j + 1];
      }
      NoRuleDefault(code, tail, default);
    }
  }

  /** Matching from rule `k` on: rule `k` if it matches, otherwise the rules after it. */
  lemma FirstMatchFrom<T>(code: string, rules: seq<(string, T)>, k: nat, default: T)
    requires k < |rules|
    ensures FirstMatch(code, rules[k..], default) ==
              if Contains(code, rules[k].0) then rules[k].1 else FirstMatch(code, rules[k + 1..], default)
  {
    assert rules[k..][1..] == rules[k + 1..];
  }

  /** The icon mapper is the first-match rule list `IconRules` with the thermometer as default. */
  lemma IconRulesInOrder(symbolCode: Option<string>)
    ensures IconFromSymbol(symbolCode) == FirstMatch(SymbolText(symbolCode), IconRules, Thermometer)
  {
    var code := SymbolText(symbolCode);
    var rules := IconRules;
    assert rules[0..] == rules && rules[9..] == [];
    FirstMatchFrom(code, rules, 8, Thermometer);
    FirstMatchFrom(code, rules, 7, Thermometer);
    FirstMatchFrom(code, rules, 6, Thermometer);
    FirstMatchFrom(code, rules, 5, Thermometer);
    FirstMatchFrom(code, rules, 4, Thermometer);
    FirstMatchFrom(code, rules, 3, Thermometer);
    FirstMatchFrom(code, rules, 2, Thermometer);
    FirstMatchFrom(code, rules, 1, Thermometer);
    FirstMatchFrom(code, rules, 0, Thermometer);
  }

  /** The description mapper is the first-match rule list `DescriptionRules` with "Ukjent" as default. */
  lemma DescriptionRulesInOrder(symbolCode: Option<string>)
    ensures YrDescription(symbolCode) == FirstMatch(SymbolText(symbolCode), DescriptionRules, "Ukjent")
  {
    var code := SymbolText(symbolCode);
    var rules := DescriptionRules;
    assert rules[0..] == rules;
    DescriptionRulesFromFog(code);
    FirstMatchFrom(code, rules, 5, "Ukjent");
    FirstMatchFrom(code, rules, 4, "Ukjent");
    FirstMatchFrom(code, rules, 3, "Ukjent");
    FirstMatchFrom(code, rules, 2, "Ukjent");
    FirstMatchFrom(code, rules, 1, "Ukjent");
    FirstMatchFrom(code, rules, 0, "Ukjent");
  }

  /** The description rules from "fog" on, as the tail of the source's chain. */
  lemma DescriptionRulesFromFog(code: string)
    ensures FirstMatch(code, DescriptionRules[6..], "Ukjent") ==
              if Contains(code, "fog") then "Tåke"
              else if Contains(code, "cloudy") then "Overskyet"
              else if Contains(code, "partlycloudy") then "Delvis skyet"
              else if Contains(code, "clearsky") then "Klarvær"
              else if Contains(code, "fair") then "Lettskyet"
              else "Ukjent"
  {
    var rules := DescriptionRules;
    assert rules[11..] == [];
    FirstMatchFrom(code, rules, 10, "Ukjent");
    FirstMatchFrom(code, rules, 9, "Ukjent");
    FirstMatchFrom(code, rules, 8, "Ukjent");
    FirstMatchFrom(code, rules, 7, "Ukjent");
    FirstMatchFrom(code, rules, 6, "Ukjent");
  }

  /**
   * The icon is that of the first rule, in listed order, whose keyword the
   * lower-cased code contains.
   */
  lemma IconFirstMatchingRule(symbolCode: Option<string>, k: nat)
    requires k < |IconRules| && Contains(SymbolText(symbolCode), IconRules[k].0)
    requires forall j :: 0 <= j < k ==> !Contains(SymbolText(symbolCode), IconRules[j].0)
    ensures IconFromSymbol(symbolCode) == IconRules[k].1
  {
    IconRulesInOrder(symbolCode);
    FirstRuleDecides(SymbolText(symbolCode), IconRules, Thermometer, k);
  }

  /**
   * The description is the text of the first rule, in listed order, whose
   * keyword the lower-cased code contains.
   */
  lemma DescriptionFirstMatchingRule(symbolCode: Option<string>, k: nat)
    requires k < |DescriptionRules| && Contains(SymbolText(symbolCode), DescriptionRules[k].0)
    requires forall j :: 0 <= j < k ==> !Contains(SymbolText(symbolCode), DescriptionRules[j].0)
    ensures YrDescription(symbolCode) == DescriptionRules[k].1
  {
    DescriptionRulesInOrder(symbolCode);
    FirstRuleDecides(SymbolText(symbolCode), DescriptionRules, "Ukjent", k);
  }
}
