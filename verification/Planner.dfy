/** The dashboard planner: a contract that is accepted gives every issue a status. */
module Planner {
  import opened Text

  datatype Json =
    | Null | Bool(flag: bool) | Number(value: int) | Str(text: string)
    | Arr(items: seq<Json>) | Obj(fields: map<string, Json>)

  type Object = map<string, Json>

  function Get(o: Object, key: string): Json {
    if key in o then o[key] else Null
  }

  function Strings(items: seq<Json>): seq<string> {
    if items == [] then [] else
    Strings(items[..|items| - 1]) + if items[|items| - 1].Str? then [items[|items| - 1].text] else []
  }

  function StringList(v: Json): seq<string> {
    if v.Arr? then Strings(v.items) else []
  }

  function ToSet(s: seq<string>): set<string> {
    set x | x in s
  }

  datatype Issue = Issue(labels: set<string>, closed: bool, stateReason: string)

  function State(issue: Issue): string {
    if issue.closed then "closed" else "open"
  }

  datatype Plan = Plan(status: string, reason: string, confidence: string, warnings: seq<string>)

  const STATUS_RULES := "dry_run_issue_status_rules"
  const CONFLICTS := "dry_run_issue_conflicts"
  const WARNINGS := "dry_run_issue_warning_rules"

  predicate LabelsMatch(rule: Object, labels: set<string>) {
    var labelsAll, labelsAny := ToSet(StringList(Get(rule, "labels_all"))), ToSet(StringList(Get(rule, "labels_any")));
    && (labelsAll == {} || labelsAll <= labels)
    && (labelsAny == {} || labelsAny * labels != {})
  }

  /** The rules of a family; none when it is not given. */
  function Family(contract: Object, family: string): seq<Json> {
    if Get(contract, family).Arr? then Get(contract, family).items else []
  }

  /** The messages of the rules that match the labels. */
  function Messages(rules: seq<Json>, labels: set<string>): seq<string> {
    if rules == [] then [] else
    var r := rules[|rules| - 1];
    Messages(rules[..|rules| - 1], labels) +
    if r.Obj? && LabelsMatch(r.fields, labels) && Get(r.fields, "message").Str?
    then [Get(r.fields, "message").text] else []
  }

  lemma MessagesNext(rules: seq<Json>, i: nat, labels: set<string>)
    requires i < |rules|
    ensures var r := rules[i];
            Messages(rules[..i + 1], labels) == Messages(rules[..i], labels) +
            if r.Obj? && LabelsMatch(r.fields, labels) && Get(r.fields, "message").Str?
            then [Get(r.fields, "message").text] else []
    ensures Messages(rules[..0], labels) == [] && rules[..|rules|] == rules
  {
    hide LabelsMatch, Get;
    assert rules[..i + 1][..i] == rules[..i];
  }

  method MatchingMessages(contract: Object, family: string, labels: set<string>) returns (messages: seq<string>)
    ensures messages == Messages(Family(contract, family), labels)
  {
    hide Messages, LabelsMatch, Family, Get;
    messages := [];
    var rules := Family(contract, family);
    if rules == [] {
      NoMessages(labels);
      return;
    }
    MessagesNext(rules, 0, labels);
    for i := 0 to |rules|
      invariant messages == Messages(rules[..i], labels)
    {
      MessagesNext(rules, i, labels);
      if !rules[i].Obj? || !LabelsMatch(rules[i].fields, labels) { continue; }
      var message := Get(rules[i].fields, "message");
      if message.Str? { messages := messages + [message.text]; }
    }
  }

  lemma NoMessages(labels: set<string>)
    ensures Messages([], labels) == []
  {
  }

  predicate Truthy(v: Json) {
    match v
    case Null => false
    case Bool(b) => b
    case Number(n) => n != 0
    case Str(s) => s != ""
    case Arr(a) => a != []
    case Obj(o) => o != map[]
  }

  predicate RuleMatches(rule: Object, issue: Issue, conflicts: seq<string>) {
    && Get(rule, "state") == Str(State(issue))
    && (Get(rule, "state_reason").Str? ==> Get(rule, "state_reason").text == issue.stateReason)
    && (Truthy(Get(rule, "has_conflicts")) ==> conflicts != [])
    && LabelsMatch(rule, issue.labels)
  }

  // ----- The validator -----

  predicate ValidMatchRule(rule: Json, isStatus: bool) {
    && rule.Obj?
    && (forall name :: name in ["labels_all", "labels_any"] && name in rule.fields ==>
          StringList(rule.fields[name]) != [])
    && (isStatus || Get(rule.fields, "message").Str?)
  }

  const NARROWING := ["state_reason", "labels_all", "labels_any", "has_conflicts"]

  const FLAGS := ["has_conflicts", "use_conflict_warnings", "use_label_warnings"]

  /** A rule for all issues of a state. */
  predicate CatchAll(rule: Object, state: string) {
    Get(rule, "state") == Str(state) && forall key :: key in NARROWING ==> key !in rule
  }

  predicate ValidStatusRule(rule: Json, statuses: set<string>) {
    && ValidMatchRule(rule, true)
    && Get(rule.fields, "state") in [Str("open"), Str("closed")]
    && Get(rule.fields, "status").Str? && Get(rule.fields, "status").text in statuses
    && Get(rule.fields, "reason").Str?
    && Get(rule.fields, "confidence") in [Str("low"), Str("medium"), Str("high")]
    && forall flag :: flag in FLAGS && flag in rule.fields ==> rule.fields[flag].Bool?
  }

  predicate ValidFamily(contract: Object, family: string) {
    family in contract ==>
      contract[family].Arr? &&
      forall i :: 0 <= i < |contract[family].items| ==> ValidMatchRule(contract[family].items[i], false)
  }

  ghost predicate HasDefault(rules: seq<Json>, state: string) {
    exists i :: 0 <= i < |rules| && rules[i].Obj? && CatchAll(rules[i].fields, state)
  }

  /** What is accepted. */
  ghost predicate Accepted(contract: Object, statuses: set<string>) {
    var rules := Get(contract, STATUS_RULES);
    && rules.Arr? && rules.items != []
    && ValidFamily(contract, CONFLICTS) && ValidFamily(contract, WARNINGS)
    && (forall i :: 0 <= i < |rules.items| ==> ValidStatusRule(rules.items[i], statuses))
    && HasDefault(rules.items, "open") && HasDefault(rules.items, "closed")
  }

  method ValidateFamily(contract: Object, family: string) returns (ok: bool)
    ensures ok <==> ValidFamily(contract, family)
  {
    hide ValidMatchRule;
    if family !in contract { return true; }
    if !contract[family].Arr? { return false; }
    var rules := contract[family].items;
    for i := 0 to |rules|
      invariant forall j :: 0 <= j < i ==> ValidMatchRule(rules[j], false)
    {
      if !ValidMatchRule(rules[i], false) { return false; }
    }
    ok := true;
  }

  method ValidateContract(contract: Object, statuses: set<string>) returns (ok: bool)
    ensures ok <==> Accepted(contract, statuses)
  {
    hide ValidStatusRule, CatchAll, ValidFamily;
    var rules := Get(contract, STATUS_RULES);
    if !rules.Arr? || rules.items == [] { return false; }
    ok := ValidateFamily(contract, CONFLICTS);
    if !ok { return; }
    ok := ValidateFamily(contract, WARNINGS);
    if !ok { return; }
    var seenOpenDefault, seenClosedDefault := false, false;
    for i := 0 to |rules.items|
      invariant forall j :: 0 <= j < i ==> ValidStatusRule(rules.items[j], statuses)
      invariant seenOpenDefault <==> HasDefault(rules.items[..i], "open")
      invariant seenClosedDefault <==> HasDefault(rules.items[..i], "closed")
    {
      var rule := rules.items[i];
      assert rules.items[..i + 1] == rules.items[..i] + [rule];
      if !ValidStatusRule(rule, statuses) { return false; }
      ValidIsObject(rule, statuses);
      DefaultNext(rules.items[..i], rule, "open");
      DefaultNext(rules.items[..i], rule, "closed");
      if CatchAll(rule.fields, "open") { seenOpenDefault := true; }
      if CatchAll(rule.fields, "closed") { seenClosedDefault := true; }
    }
    assert rules.items[..|rules.items|] == rules.items;
    ok := seenOpenDefault && seenClosedDefault;
  }

  lemma ValidIsObject(rule: Json, statuses: set<string>)
    requires ValidStatusRule(rule, statuses)
    ensures rule.Obj?
  {
  }

  lemma DefaultNext(rules: seq<Json>, rule: Json, state: string)
    ensures HasDefault(rules + [rule], state) <==>
              HasDefault(rules, state) || (rule.Obj? && CatchAll(rule.fields, state))
  {
    hide CatchAll;
    var more := rules + [rule];
    assert more[|rules|] == rule && forall j :: 0 <= j < |rules| ==> more[j] == rules[j];
    if HasDefault(rules, state) {
      var i :| 0 <= i < |rules| && rules[i].Obj? && CatchAll(rules[i].fields, state);
      assert more[i].Obj? && CatchAll(more[i].fields, state);
    }
  }

  // ----- The interpreter -----

  function ConflictsOf(contract: Object, issue: Issue): seq<string> {
    if issue.closed then [] else Messages(Family(contract, CONFLICTS), issue.labels)
  }

  /** The rule that decides: it matches, and none before it does. */
  ghost predicate Decides(contract: Object, issue: Issue, i: int) {
    var rules := Family(contract, STATUS_RULES);
    && 0 <= i < |rules| && rules[i].Obj? && RuleMatches(rules[i].fields, issue, ConflictsOf(contract, issue))
    && forall j :: 0 <= j < i ==> rules[j].Obj? && !RuleMatches(rules[j].fields, issue, ConflictsOf(contract, issue))
  }

  /** The shape that the interpreter relies on. */
  predicate Readable(rule: Json) {
    && rule.Obj?
    && Get(rule.fields, "status").Str? && Get(rule.fields, "reason").Str? && Get(rule.fields, "confidence").Str?
  }

  function RulePlan(rule: Object, warnings: seq<string>, conflicts: seq<string>): Plan
    requires Readable(Obj(rule))
  {
    Plan(rule["status"].text, rule["reason"].text, rule["confidence"].text,
         (if Truthy(Get(rule, "use_conflict_warnings")) then conflicts else []) +
         (if Truthy(Get(rule, "use_label_warnings")) then warnings else []))
  }

  method ClassifyIssue(issue: Issue, contract: Object) returns (plan: Option<Plan>, ghost chosen: int)
    requires forall i :: 0 <= i < |Family(contract, STATUS_RULES)| ==> Readable(Family(contract, STATUS_RULES)[i])
    ensures plan.Some? <==> exists i :: Decides(contract, issue, i)
    ensures plan.Some? ==> Decides(contract, issue, chosen)
    ensures plan.Some? ==> plan.value == RulePlan(Family(contract, STATUS_RULES)[chosen].fields,
                                                  Messages(Family(contract, WARNINGS), issue.labels),
                                                  ConflictsOf(contract, issue))
  {
    hide RuleMatches, Messages, Family;
    var conflicts: seq<string> := [];
    if !issue.closed { conflicts := MatchingMessages(contract, CONFLICTS, issue.labels); }
    var warnings := MatchingMessages(contract, WARNINGS, issue.labels);
    var rules := Family(contract, STATUS_RULES);
    for i := 0 to |rules|
      invariant forall j :: 0 <= j < i ==> rules[j].Obj? && !RuleMatches(rules[j].fields, issue, conflicts)
    {
      assert Readable(rules[i]);
      if RuleMatches(rules[i].fields, issue, conflicts) {
        assert Decides(contract, issue, i);
        return Some(RulePlan(rules[i].fields, warnings, conflicts)), i;
      }
    }
    plan, chosen := None, 0;
  }

  /** A catch-all rule matches every issue of its state. */
  lemma CatchAllMatches(rule: Object, issue: Issue, conflicts: seq<string>)
    requires CatchAll(rule, State(issue))
    ensures RuleMatches(rule, issue, conflicts)
  {
    assert "state_reason" in NARROWING && "labels_all" in NARROWING && "labels_any" in NARROWING
           && "has_conflicts" in NARROWING;
  }

  lemma {:induction false} FirstMatch(contract: Object, issue: Issue, k: int)
    requires var rules := Family(contract, STATUS_RULES);
             && 0 <= k < |rules| && (forall j :: 0 <= j <= k ==> rules[j].Obj?)
             && RuleMatches(rules[k].fields, issue, ConflictsOf(contract, issue))
    ensures exists i :: 0 <= i <= k && Decides(contract, issue, i)
  {
    hide RuleMatches, Family;
    var rules, c := Family(contract, STATUS_RULES), ConflictsOf(contract, issue);
    if j :| 0 <= j < k && RuleMatches(rules[j].fields, issue, c) {
      FirstMatch(contract, issue, j);
    } else {
      assert Decides(contract, issue, k);
    }
  }

  lemma AcceptedRules(contract: Object, statuses: set<string>)
    requires Accepted(contract, statuses)
    ensures Family(contract, STATUS_RULES) == Get(contract, STATUS_RULES).items
    ensures forall i :: 0 <= i < |Family(contract, STATUS_RULES)| ==>
              ValidStatusRule(Family(contract, STATUS_RULES)[i], statuses)
                && Readable(Family(contract, STATUS_RULES)[i])
  {
  }

  lemma DecidesOnce(contract: Object, issue: Issue, i: int, j: int)
    requires Decides(contract, issue, i) && Decides(contract, issue, j)
    ensures i == j
  {
    hide RuleMatches, Family, ConflictsOf;
  }

  lemma AcceptedDefault(contract: Object, statuses: set<string>, issue: Issue)
    requires Accepted(contract, statuses)
    ensures var rules := Family(contract, STATUS_RULES);
            HasDefault(rules, State(issue)) && forall i :: 0 <= i < |rules| ==> rules[i].Obj?
  {
    hide ValidStatusRule, CatchAll;
    AcceptedRules(contract, statuses);
  }

  lemma DefaultDecides(contract: Object, issue: Issue)
    requires var rules := Family(contract, STATUS_RULES);
             HasDefault(rules, State(issue)) && forall i :: 0 <= i < |rules| ==> rules[i].Obj?
    ensures exists i :: Decides(contract, issue, i)
  {
    hide RuleMatches, Family, CatchAll, ConflictsOf, Decides, State;
    var rules := Family(contract, STATUS_RULES);
    var k :| 0 <= k < |rules| && rules[k].Obj? && CatchAll(rules[k].fields, State(issue));
    CatchAllMatches(rules[k].fields, issue, ConflictsOf(contract, issue));
    FirstMatch(contract, issue, k);
  }

  /** The rule that decides gives an allowed status. */
  lemma DecidesAllowed(contract: Object, statuses: set<string>, issue: Issue, i: int)
    requires Accepted(contract, statuses) && Decides(contract, issue, i)
    ensures var rule := Family(contract, STATUS_RULES)[i];
            Readable(rule) && Get(rule.fields, "status").text in statuses
              && Get(rule.fields, "confidence").text in ["low", "medium", "high"]
  {
    hide RuleMatches, Accepted;
    AcceptedRules(contract, statuses);
  }

  /** An accepted contract decides every issue, by exactly one rule, with an allowed status and confidence. */
  lemma AcceptedIsTotal(contract: Object, statuses: set<string>, issue: Issue)
    requires Accepted(contract, statuses)
    ensures exists i :: Decides(contract, issue, i) && forall j :: Decides(contract, issue, j) ==> i == j
    ensures forall i :: Decides(contract, issue, i) ==>
              var rule := Family(contract, STATUS_RULES)[i];
              Readable(rule) && Get(rule.fields, "status").text in statuses
                && Get(rule.fields, "confidence").text in ["low", "medium", "high"]
  {
    hide *;
    AcceptedDefault(contract, statuses, issue);
    DefaultDecides(contract, issue);
    var i :| Decides(contract, issue, i);
    forall j | Decides(contract, issue, j) ensures i == j { DecidesOnce(contract, issue, i, j); }
    DecidesAllowed(contract, statuses, issue, i);
  }

  /** A rule after a catch-all for its state is never used. */
  lemma NothingAfterCatchAll(contract: Object, i: int, j: int, issue: Issue)
    requires var rules := Family(contract, STATUS_RULES);
             && 0 <= i < j < |rules| && rules[i].Obj? && rules[j].Obj?
             && exists state :: CatchAll(rules[i].fields, state) && Get(rules[j].fields, "state") == Str(state)
    ensures !Decides(contract, issue, j)
  {
    var rules := Family(contract, STATUS_RULES);
    var state :| CatchAll(rules[i].fields, state) && Get(rules[j].fields, "state") == Str(state);
    if RuleMatches(rules[j].fields, issue, ConflictsOf(contract, issue)) {
      CatchAllMatches(rules[i].fields, issue, ConflictsOf(contract, issue));
    }
  }
}
