/** The allow and deny rules of src/agent/Confirm.cpp, and the gate that consults them before asking the user. */
module Confirm {

  datatype Decision = Prompt | Allow | Deny

  datatype Choice = Yes | No | Always

  // ----- rules -----

  datatype Rule = Rule(tool: string, prefix: string, hasPrefix: bool)

  /** Position of the first colon, or the length. */
  function FirstColon(s: string): (k: nat)
    ensures k <= |s| && ':' !in s[..k] && (k < |s| ==> s[k] == ':')
  {
    if s == "" || s[0] == ':' then 0
    else
      var k := FirstColon(s[1..]);
      assert s[..k + 1] == [s[0]] + s[1..][..k];
      k + 1
  }

  /** Splits at the first colon; everything behind it, verbatim, is the prefix. */
  function SplitRule(rule: string): Rule {
    var k := FirstColon(rule);
    if k == |rule| then Rule(rule, "", false) else Rule(rule[..k], rule[k + 1..], true)
  }

  /**
    What a rule says, without splitting it: a bare rule names a tool; a rule with a colon names a tool
    (which then has no colon in it) and a prefix of the details. The empty rule says nothing.
   */
  ghost predicate Matches(rule: string, tool: string, details: string) {
    rule != ""
    && ((':' !in rule && rule == tool)
        || (':' !in tool && exists p: string :: p <= details && rule == tool + ":" + p))
  }

  lemma FirstColonIs(tool: string, p: string)
    requires ':' !in tool
    ensures FirstColon(tool + ":" + p) == |tool|
  {
    var s := tool + ":" + p;
    if tool == "" {
      assert s[0] == ':';
    } else {
      assert tool[0] in tool && forall c :: c in tool[1..] ==> c in tool;
      FirstColonIs(tool[1..], p);
      assert s[1..] == tool[1..] + ":" + p;
    }
  }

  /** Splitting decides what the rule says. */
  lemma SplitDecides(rule: string, tool: string, details: string)
    ensures Matches(rule, tool, details) <==>
            var r := SplitRule(rule);
            rule != "" && r.tool == tool && (r.hasPrefix ==> r.prefix <= details)
  {
    var k := FirstColon(rule);
    var r := SplitRule(rule);
    if k == |rule| {
      assert rule[..k] == rule;
      forall p: string
        ensures rule != tool + ":" + p
      {
        assert (tool + ":" + p)[|tool|] == ':';
      }
    } else {
      assert rule[k] in rule;
      assert rule == r.tool + ":" + r.prefix;
      forall p: string | ':' !in tool && rule == tool + ":" + p
        ensures tool == r.tool && p == r.prefix
      {
        FirstColonIs(tool, p);
        assert rule[..|tool|] == tool && rule[|tool| + 1..] == p;
      }
    }
  }

  ghost predicate AnyMatches(rules: set<string>, tool: string, details: string) {
    exists r :: r in rules && Matches(r, tool, details)
  }

  /** The verdict as a function of the two sets of rules: no order, no repetition, deny before allow. */
  ghost function Verdict(allow: set<string>, deny: set<string>, tool: string, details: string): Decision {
    if AnyMatches(deny, tool, details) then Deny
    else if AnyMatches(allow, tool, details) then Allow
    else Prompt
  }

  // ----- the policy -----

  /** `tools` and `prefixes` hold exactly the rules of the set `rules`. */
  ghost predicate Holds(tools: set<string>, prefixes: map<string, seq<string>>, rules: set<string>) {
    && (forall t :: t in tools <==> t in rules && t != "" && !SplitRule(t).hasPrefix)
    && (forall t, p :: InPrefixes(prefixes, t, p) <==>
          exists r :: r in rules && r != "" && SplitRule(r) == Rule(t, p, true))
  }

  predicate InPrefixes(prefixes: map<string, seq<string>>, t: string, p: string) {
    t in prefixes && p in prefixes[t]
  }

  /** What adding a rule does to the two collections. */
  lemma HoldsMore(tools: set<string>, prefixes: map<string, seq<string>>, rules: set<string>, rule: string)
    requires Holds(tools, prefixes, rules)
    ensures var r := SplitRule(rule);
            if rule == "" then Holds(tools, prefixes, rules + {rule})
            else if r.hasPrefix then
              Holds(tools,
                    prefixes[r.tool := (if r.tool in prefixes then prefixes[r.tool] else []) + [r.prefix]],
                    rules + {rule})
            else Holds(tools + {r.tool}, prefixes, rules + {rule})
  {
    var r := SplitRule(rule);
    var more := prefixes[r.tool := (if r.tool in prefixes then prefixes[r.tool] else []) + [r.prefix]];
    var all := rules + {rule};
    forall t, p
      ensures InPrefixes(more, t, p) <==> InPrefixes(prefixes, t, p) || (t == r.tool && p == r.prefix)
    {
    }
    forall t, p
      ensures (exists q :: q in all && q != "" && SplitRule(q) == Rule(t, p, true))
              <==> (exists q :: q in rules && q != "" && SplitRule(q) == Rule(t, p, true))
                   || (rule != "" && r == Rule(t, p, true))
    {
      if rule != "" && r == Rule(t, p, true) {
        assert rule in all;
      }
      forall q | q in rules && q != "" && SplitRule(q) == Rule(t, p, true)
        ensures q in all
      {
      }
    }
  }

  class ConfirmPolicy {
    var allowTools: set<string>
    var denyTools: set<string>
    var allowPrefixes: map<string, seq<string>>
    var denyPrefixes: map<string, seq<string>>
    ghost var allowRules: set<string>
    ghost var denyRules: set<string>

    ghost predicate Valid()
      reads this
    {
      Holds(allowTools, allowPrefixes, allowRules) && Holds(denyTools, denyPrefixes, denyRules)
    }

    constructor ()
      ensures Valid() && allowRules == {} && denyRules == {}
    {
      allowTools, denyTools := {}, {};
      allowPrefixes, denyPrefixes := map[], map[];
      allowRules, denyRules := {}, {};
    }

    method AddAllow(rule: string)
      requires Valid()
      modifies this
      ensures Valid() && allowRules == old(allowRules) + {rule} && denyRules == old(denyRules)
    {
      HoldsMore(allowTools, allowPrefixes, allowRules, rule);
      allowRules := allowRules + {rule};
      if rule == "" {
        return;
      }
      var r := SplitRule(rule);
      if r.hasPrefix {
        var before := if r.tool in allowPrefixes then allowPrefixes[r.tool] else [];
        allowPrefixes := allowPrefixes[r.tool := before + [r.prefix]];
      } else {
        allowTools := allowTools + {r.tool};
      }
    }

    method AddDeny(rule: string)
      requires Valid()
      modifies this
      ensures Valid() && allowRules == old(allowRules) && denyRules == old(denyRules) + {rule}
    {
      HoldsMore(denyTools, denyPrefixes, denyRules, rule);
      denyRules := denyRules + {rule};
      if rule == "" {
        return;
      }
      var r := SplitRule(rule);
      if r.hasPrefix {
        var before := if r.tool in denyPrefixes then denyPrefixes[r.tool] else [];
        denyPrefixes := denyPrefixes[r.tool := before + [r.prefix]];
      } else {
        denyTools := denyTools + {r.tool};
      }
    }

    /** The verdict depends on the set of rules only. */
    method Decide(tool: string, details: string) returns (d: Decision)
      requires Valid()
      ensures d == Verdict(allowRules, denyRules, tool, details)
    {
      AnyMatchesIff(denyTools, denyPrefixes, denyRules, tool, details);
      AnyMatchesIff(allowTools, allowPrefixes, allowRules, tool, details);
      if tool in denyTools {
        return Deny;
      }
      if tool in denyPrefixes {
        var hit := SomePrefix(denyPrefixes[tool], details);
        if hit {
          return Deny;
        }
      }
      if tool in allowTools {
        return Allow;
      }
      if tool in allowPrefixes {
        var hit := SomePrefix(allowPrefixes[tool], details);
        if hit {
          return Allow;
        }
      }
      return Prompt;
    }
  }

  /** Whether one of the prefixes starts the details. */
  method SomePrefix(prefixes: seq<string>, details: string) returns (hit: bool)
    ensures hit <==> exists p :: p in prefixes && p <= details
  {
    for i := 0 to |prefixes|
      invariant forall j :: 0 <= j < i ==> !(prefixes[j] <= details)
    {
      if prefixes[i] <= details {
        assert prefixes[i] in prefixes;
        return true;
      }
    }
    return false;
  }

  /** Looking a tool up in the two collections finds out whether any rule matches. */
  lemma AnyMatchesIff(tools: set<string>, prefixes: map<string, seq<string>>, rules: set<string>,
                      tool: string, details: string)
    requires Holds(tools, prefixes, rules)
    ensures AnyMatches(rules, tool, details) <==>
            tool in tools || (tool in prefixes && exists p :: p in prefixes[tool] && p <= details)
  {
    if AnyMatches(rules, tool, details) {
      var r :| r in rules && Matches(r, tool, details);
      SplitDecides(r, tool, details);
      var s := SplitRule(r);
      if s.hasPrefix {
        assert SplitRule(r) == Rule(tool, s.prefix, true);
        assert InPrefixes(prefixes, tool, s.prefix);
      } else {
        assert r == tool;
      }
    }
    if tool in tools {
      SplitDecides(tool, tool, details);
      assert SplitRule(tool).tool == tool;
    }
    if tool in prefixes && exists p :: p in prefixes[tool] && p <= details {
      var p :| p in prefixes[tool] && p <= details;
      assert InPrefixes(prefixes, tool, p);
      var r :| r in rules && r != "" && SplitRule(r) == Rule(tool, p, true);
      SplitDecides(r, tool, details);
    }
  }

  method MakeConfirmPolicy(allow: seq<string>, deny: seq<string>) returns (policy: ConfirmPolicy)
    ensures fresh(policy) && policy.Valid()
    ensures policy.allowRules == (set r | r in allow) && policy.denyRules == (set r | r in deny)
  {
    policy := new ConfirmPolicy();
    for i := 0 to |allow|
      invariant policy.Valid() && fresh(policy)
      invariant policy.allowRules == (set r | r in allow[..i]) && policy.denyRules == {}
    {
      policy.AddAllow(allow[i]);
      assert allow[..i + 1] == allow[..i] + [allow[i]];
    }
    assert allow[..|allow|] == allow;
    for i := 0 to |deny|
      invariant policy.Valid() && fresh(policy)
      invariant policy.allowRules == (set r | r in allow) && policy.denyRules == (set r | r in deny[..i])
    {
      policy.AddDeny(deny[i]);
      assert deny[..i + 1] == deny[..i] + [deny[i]];
    }
    assert deny[..|deny|] == deny;
  }

  // ----- the gate -----

  /** A tool as the gate sees it. */
  datatype Tool = Tool(name: string, gated: bool)

  /** The rules, whether a confirmer is wired up, and the tools the user always allows. */
  datatype Gate = Gate(allow: set<string>, deny: set<string>, hasConfirmer: bool, always: set<string>)

  datatype Outcome = Outcome(allowed: bool, prompted: bool)

  /** Whether the user is asked about this call. */
  ghost predicate Asks(g: Gate, tool: Tool, details: string) {
    tool.gated && Verdict(g.allow, g.deny, tool.name, details) == Prompt && tool.name !in g.always && g.hasConfirmer
  }

  /** One call at the gate; `answer` is what the user says if asked. */
  ghost function Pass(g: Gate, tool: Tool, details: string, answer: Choice): (r: (Gate, Outcome)) {
    if Asks(g, tool, details) then
      (if answer == Always then g.(always := g.always + {tool.name}) else g, Outcome(answer != No, true))
    else
      var verdict := Verdict(g.allow, g.deny, tool.name, details);
      (g, Outcome(!tool.gated || verdict == Allow || (verdict == Prompt && tool.name in g.always), false))
  }

  class ConfirmGate {
    const policy: ConfirmPolicy
    const hasConfirmer: bool
    var alwaysAllowed: set<string>

    ghost function State(): Gate
      reads this, policy
    {
      Gate(policy.allowRules, policy.denyRules, hasConfirmer, alwaysAllowed)
    }

    constructor (policy: ConfirmPolicy, hasConfirmer: bool)
      ensures this.policy == policy && this.hasConfirmer == hasConfirmer && alwaysAllowed == {}
    {
      this.policy := policy;
      this.hasConfirmer := hasConfirmer;
      alwaysAllowed := {};
    }

    method AllowCall(tool: Tool, details: string, answer: Choice) returns (outcome: Outcome)
      requires policy.Valid()
      modifies this
      ensures (State(), outcome) == Pass(old(State()), tool, details, answer)
    {
      if !tool.gated {
        return Outcome(true, false);
      }
      var d := policy.Decide(tool.name, details);
      match d {
        case Deny => return Outcome(false, false);
        case Allow => return Outcome(true, false);
        case Prompt =>
      }
      if tool.name in alwaysAllowed {
        return Outcome(true, false);
      }
      if !hasConfirmer {
        return Outcome(false, false);
      }
      match answer {
        case Yes => return Outcome(true, true);
        case Always =>
          alwaysAllowed := alwaysAllowed + {tool.name};
          return Outcome(true, true);
        case No => return Outcome(false, true);
      }
    }
  }

  // ----- whole sessions -----

  datatype Call = Call(tool: Tool, details: string, answer: Choice)

  /** The gate after the first `n` calls of a session. */
  ghost function After(g: Gate, calls: seq<Call>, n: nat): Gate
    requires n <= |calls|
  {
    if n == 0 then g
    else
      var c := calls[n - 1];
      Pass(After(g, calls, n - 1), c.tool, c.details, c.answer).0
  }

  /** What happens to call number `k`. */
  ghost function OutcomeOf(g: Gate, calls: seq<Call>, k: nat): Outcome
    requires k < |calls|
  {
    Pass(After(g, calls, k), calls[k].tool, calls[k].details, calls[k].answer).1
  }

  /** The user was asked about call `j` and answered Always. */
  ghost predicate SaidAlways(g: Gate, calls: seq<Call>, j: nat, name: string)
    requires j < |calls|
  {
    calls[j].tool.name == name && calls[j].answer == Always && OutcomeOf(g, calls, j).prompted
  }

  /** The rules never change, and the tools always allowed are those the user said Always for. */
  lemma {:induction false} AlwaysSet(g: Gate, calls: seq<Call>, n: nat)
    requires n <= |calls| && g.always == {}
    ensures var h := After(g, calls, n);
            && h.allow == g.allow && h.deny == g.deny && h.hasConfirmer == g.hasConfirmer
            && forall name :: name in h.always <==> exists j: nat :: j < n && SaidAlways(g, calls, j, name)
  {
    if n > 0 {
      AlwaysSet(g, calls, n - 1);
      var before, h := After(g, calls, n - 1), After(g, calls, n);
      var c := calls[n - 1];
      forall name
        ensures name in h.always <==> exists j: nat :: j < n && SaidAlways(g, calls, j, name)
      {
        if name in h.always && name !in before.always {
          assert SaidAlways(g, calls, n - 1, name);
        }
        if exists j: nat :: j < n && SaidAlways(g, calls, j, name) {
          var j: nat :| j < n && SaidAlways(g, calls, j, name);
          assert j < n - 1 ==> name in before.always;
        }
        if name in before.always {
          var j: nat :| j < n - 1 && SaidAlways(g, calls, j, name);
          assert j < n && SaidAlways(g, calls, j, name);
        }
      }
    }
  }

  /**
    Over any session, a gated call runs exactly when no deny rule matches it and: an allow rule matches, or the user
    said Always for that tool earlier, or the user was asked about this very call and said Yes or Always.
    The user is asked exactly when no rule decides and there was no earlier Always.
   */
  lemma GatedCallsRunIff(g: Gate, calls: seq<Call>, k: nat)
    requires k < |calls| && g.always == {} && calls[k].tool.gated
    ensures var c, o := calls[k], OutcomeOf(g, calls, k);
            var earlier := exists j: nat :: j < k && SaidAlways(g, calls, j, c.tool.name);
            && (o.allowed <==>
                  && !AnyMatches(g.deny, c.tool.name, c.details)
                  && (AnyMatches(g.allow, c.tool.name, c.details) || earlier || (o.prompted && c.answer != No)))
            && (o.prompted <==>
                  && !AnyMatches(g.deny, c.tool.name, c.details)
                  && !AnyMatches(g.allow, c.tool.name, c.details)
                  && !earlier
                  && g.hasConfirmer)
  {
    AlwaysSet(g, calls, k);
  }

  /** A call of a tool that is not gated runs without a question, whatever the rules, and leaves the gate as it was. */
  lemma UngatedCallsRun(g: Gate, calls: seq<Call>, k: nat)
    requires k < |calls| && !calls[k].tool.gated
    ensures OutcomeOf(g, calls, k) == Outcome(true, false)
    ensures After(g, calls, k + 1) == After(g, calls, k)
  {
  }

  /** After an Always the user is never asked about that tool again. */
  lemma NeverAskedAgain(g: Gate, calls: seq<Call>, j: nat, k: nat)
    requires j < k < |calls| && g.always == {} && SaidAlways(g, calls, j, calls[k].tool.name)
    ensures !OutcomeOf(g, calls, k).prompted
  {
    AlwaysSet(g, calls, k);
  }
}
