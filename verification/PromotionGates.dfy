/** The gates a promotion passes: which rule covers a component, and whether its scan lets it through. */
module PromotionGates {
  import opened Prelude

  datatype Rule = Rule(
    id: Id,
    fromRepo: Id,
    toRepo: Id,
    pathFilter: string,
    autoPromote: bool,
    requireScanPass: bool,
    requireManualApproval: bool,
    failOn: seq<string>)

  datatype Component = Component(id: Id, repository: Id, format: string, path: string)

  /** `findings` counts a scan's findings by severity; a severity it does not name has none. */
  datatype Scan = Scan(scannedAt: int, failed: bool, findings: map<string, nat>)

  /** The calls that may fail with something other than "not found". */
  datatype Call =
    | RuleLookup | SiblingLookup | ComponentLookup | RepositoryLookup
    | RequestInsert | RequestReadback | PendingFail | RefusalInsert | Settlement
    | QueueRead | QueueWrite

  /**
   The tables and foreign answers one call reads, and the calls that fail it (`down`). `worker`
   is whether the service has a queue and its worker at all. `cel` evaluates a non-empty path filter, `plan`
   is how many assets a copy of the component into the repository would write (or why it is
   refused; the flag asks for what is missing only), `copy` how the byte copy ends.
   */
  datatype World = World(
    rules: seq<Rule>,
    components: map<Id, Component>,
    scans: map<Id, Scan>,
    repositories: set<Id>,
    down: set<Call>,
    worker: bool,
    scannable: string -> bool,
    cel: (string, Component) -> Result<bool, string>,
    plan: (Component, Id, bool) -> Result<nat, string>,
    copy: (Component, Id) -> Option<string>)

  function FindRule(rules: seq<Rule>, id: Id): (r: Option<Rule>)
    ensures r.Some? ==> r.value in rules && r.value.id == id
    ensures r.None? ==> forall rule :: rule in rules ==> rule.id != id
  {
    if rules == [] then None
    else if rules[0].id == id then Some(rules[0])
    else FindRule(rules[1..], id)
  }

  function EvalPathFilter(w: World, rule: Rule, comp: Component): Result<bool, string> {
    if rule.pathFilter == "" then Ok(true) else w.cel(rule.pathFilter, comp)
  }

  /** A sibling that cannot be a second rule for the same move of this component. */
  predicate Harmless(w: World, rule: Rule, sibling: Rule, comp: Component) {
    || sibling.fromRepo != comp.repository
    || sibling.id == rule.id
    || sibling.toRepo != rule.toRepo
    || EvalPathFilter(w, sibling, comp) == Ok(false)
  }

  predicate SoleRule(w: World, rule: Rule, comp: Component) {
    SiblingLookup !in w.down && forall sibling :: sibling in w.rules ==> Harmless(w, rule, sibling, comp)
  }

  predicate Covers(w: World, rule: Rule, comp: Component) {
    comp.repository == rule.fromRepo && EvalPathFilter(w, rule, comp) == Ok(true) && SoleRule(w, rule, comp)
  }

  function Findings(scan: Scan, severity: string): nat {
    if severity in scan.findings then scan.findings[severity] else 0
  }

  predicate ScanPasses(w: World, rule: Rule, comp: Id) {
    rule.requireScanPass ==>
      comp in w.scans && forall severity :: severity in rule.failOn ==> Findings(w.scans[comp], severity) == 0
  }

  method NoSiblingRuleApplies(w: World, rule: Rule, comp: Component) returns (err: Option<string>)
    ensures err.None? <==> SoleRule(w, rule, comp)
  {
    if SiblingLookup in w.down {
      return Some("cannot check whether other rules cover the component");
    }
    for i := 0 to |w.rules|
      invariant forall k :: 0 <= k < i ==> Harmless(w, rule, w.rules[k], comp)
    {
      var sibling := w.rules[i];
      if sibling.fromRepo != comp.repository || sibling.id == rule.id || sibling.toRepo != rule.toRepo {
        continue;
      }
      assert EvalPathFilter(w, sibling, comp) != Ok(false) ==> !Harmless(w, rule, sibling, comp);
      match EvalPathFilter(w, sibling, comp)
      case Err(_) => return Some("ambiguous: a sibling's path filter could not be evaluated");
      case Ok(matched) =>
        if matched {
          return Some("ambiguous: two rules cover the component");
        }
    }
    return None;
  }

  method RuleAppliesTo(w: World, rule: Rule, comp: Component) returns (err: Option<string>)
    ensures err.None? <==> Covers(w, rule, comp)
  {
    if comp.repository != rule.fromRepo {
      return Some("the rule does not promote from the component's repository");
    }
    match EvalPathFilter(w, rule, comp)
    case Err(e) => return Some(e);
    case Ok(matched) =>
      if !matched {
        return Some("the component does not match the rule's path filter");
      }
    err := NoSiblingRuleApplies(w, rule, comp);
  }

  method ScanGate(w: World, rule: Rule, comp: Id) returns (err: Option<string>)
    ensures err.None? <==> ScanPasses(w, rule, comp)
  {
    if !rule.requireScanPass {
      return None;
    }
    if comp !in w.scans {
      return Some("scan required but not yet run");
    }
    var failed := [];
    for i := 0 to |rule.failOn|
      invariant failed == [] <==> forall k :: 0 <= k < i ==> Findings(w.scans[comp], rule.failOn[k]) == 0
    {
      if Findings(w.scans[comp], rule.failOn[i]) > 0 {
        failed := failed + [rule.failOn[i]];
      }
    }
    return if failed != [] then Some("scan has findings") else None;
  }

  /**
   Whoever names a rule cannot choose which gates apply: of all stored rules between two
   repositories at most one ever covers a component, and two that both match it are both refused.
   */
  lemma OneRuleDecides(w: World, a: Rule, b: Rule, comp: Component)
    requires a in w.rules && b in w.rules && a.toRepo == b.toRepo
    ensures Covers(w, a, comp) && Covers(w, b, comp) ==> a.id == b.id
    ensures a.id != b.id && a.fromRepo == b.fromRepo == comp.repository
            && EvalPathFilter(w, a, comp) != Ok(false) && EvalPathFilter(w, b, comp) != Ok(false)
            ==> !Covers(w, a, comp) && !Covers(w, b, comp)
  {
    assert Covers(w, a, comp) ==> Harmless(w, a, b, comp);
    assert Covers(w, b, comp) ==> Harmless(w, b, a, comp);
  }
}
