/** The pull-request gate of the CI: whether the author is trusted, whether CI
    may run, which labels to add and remove, and which commit statuses and
    exit code the check ends with. The CI configuration constants are
    parameters; the GitHub calls are recorded in the returned report. */
module RunCheck {
  /** The constants of the CI configuration: the labels it names, the
      trusted contributors, the map from changelog category to label and the
      name of the CI status. */
  datatype CiConfig = CiConfig(
    release: string,
    prBackport: string,
    prCherrypick: string,
    canBeTested: string,
    submoduleChanged: string,
    prFeature: string,
    autoBackport: set<string>,
    mustBackport: string,
    mustBackportCloud: string,
    trustedContributors: set<string>,
    categoryToLabel: map<string, string>,
    ciStatusName: string)

  /** What the script reads about the pull request. */
  datatype PrInfo = PrInfo(
    number: nat,
    labels: seq<string>,
    userLogin: string,
    userOrgs: seq<int>,
    hasChangesInSubmodules: bool,
    hasChangesInDocumentation: bool,
    isMergeQueue: bool)

  /** What the description check reports: an error message and the
      changelog category found in the description. The script tests the
      message for truth, so an absent message and an empty one both mean
      "no error"; both are the empty string here. */
  datatype DescriptionCheck = DescriptionCheck(error: string, category: string)

  /** The description check found an error: its message is not empty. */
  predicate HasDescriptionError(check: DescriptionCheck)
  {
    check.error != ""
  }

  /** Where the report links point, and how descriptions are shortened
      before they are posted. */
  datatype Environment = Environment(
    serverUrl: string,
    repository: string,
    ciReportUrl: string,
    formatDescription: string -> string)

  datatype StatusType = Success | Failure | Pending

  /** One commit status posted: state, target url, description, context. */
  datatype CommitStatus = CommitStatus(state: StatusType, url: string, description: string, context: string)

  /** Everything the run does that is visible from outside: its exit code,
      the labels posted and removed, and the commit statuses, in order. */
  datatype Report = Report(
    exitCode: nat,
    labelsAdded: seq<string>,
    labelsRemoved: seq<string>,
    statuses: seq<CommitStatus>)

  const TrustedOrgIds: set<int> := {54801242}
  const PrCheck := "PR Check"
  const SkipDescription := "Don't try new checks for release/backports/cherry-picks"
  const NeedsLabelDescription := "Needs 'can be tested' label"
  const NoConditionsDescription := "No special conditions apply"

  function LowerChar(c: char): char
  {
    if 'A' <= c <= 'Z' then (c as int - 'A' as int + 'a' as int) as char else c
  }

  function ToLower(s: string): string
  {
    seq(|s|, i requires 0 <= i < |s| => LowerChar(s[i]))
  }

  /** The trust rule: the lower-cased login is a trusted contributor, or one
      of the user's organisations is trusted. */
  predicate IsTrusted(cfg: CiConfig, login: string, orgs: seq<int>)
  {
    ToLower(login) in cfg.trustedContributors || exists i :: 0 <= i < |orgs| && orgs[i] in TrustedOrgIds
  }

  /** `pr_is_by_trusted_user`: checks the login, then the organisations one
      by one, returning at the first trusted one. */
  method PrIsByTrustedUser(cfg: CiConfig, login: string, orgs: seq<int>) returns (trusted: bool)
    ensures trusted <==> IsTrusted(cfg, login, orgs)
  {
    if ToLower(login) in cfg.trustedContributors {
      return true;
    }
    var i := 0;
    while i < |orgs|
      invariant 0 <= i <= |orgs|
      invariant forall j :: 0 <= j < i ==> orgs[j] !in TrustedOrgIds
    {
      if orgs[i] in TrustedOrgIds {
        return true;
      }
      i := i + 1;
    }
    return false;
  }

  /** A release, backport or cherry-pick label is present. */
  predicate HasSkipLabel(cfg: CiConfig, labels: seq<string>)
  {
    cfg.release in labels || cfg.prBackport in labels || cfg.prCherrypick in labels
  }

  datatype RunDecision = RunDecision(canRun: bool, description: string)

  /** `should_run_ci_for_pr`: a release/backport/cherry-pick label lets CI run
      whatever the author; otherwise CI runs exactly when the "can be tested"
      label is present or the author is trusted. */
  function ShouldRunCiForPr(cfg: CiConfig, pr: PrInfo): (r: RunDecision)
    ensures HasSkipLabel(cfg, pr.labels) ==> r.canRun && r.description == SkipDescription
    ensures !HasSkipLabel(cfg, pr.labels) ==>
              (r.canRun <==> cfg.canBeTested in pr.labels || IsTrusted(cfg, pr.userLogin, pr.userOrgs))
    ensures !r.canRun ==> r.description == NeedsLabelDescription
    ensures !HasSkipLabel(cfg, pr.labels) && r.canRun ==> r.description == NoConditionsDescription
  {
    if HasSkipLabel(cfg, pr.labels) then RunDecision(true, SkipDescription)
    else if cfg.canBeTested !in pr.labels && !IsTrusted(cfg, pr.userLogin, pr.userOrgs) then
      RunDecision(false, NeedsLabelDescription)
    else RunDecision(true, NoConditionsDescription)
  }

  /** A present label that names another category than the description's. */
  predicate IsStaleCategoryLabel(cfg: CiConfig, category: string, name: string)
  {
    name in cfg.categoryToLabel.Values
    && category in cfg.categoryToLabel
    && name != cfg.categoryToLabel[category]
  }

  /** The category label to add: the one the category maps to, if it is absent. */
  function CategoryLabelToAdd(cfg: CiConfig, labels: seq<string>, category: string): seq<string>
  {
    if category in cfg.categoryToLabel && cfg.categoryToLabel[category] !in labels
    then [cfg.categoryToLabel[category]] else []
  }

  /** The stale category labels among `labels`, in order. */
  function StaleCategoryLabels(cfg: CiConfig, category: string, labels: seq<string>): (r: seq<string>)
    decreases |labels|
  {
    if labels == [] then []
    else
      var last := labels[|labels| - 1];
      StaleCategoryLabels(cfg, category, labels[..|labels| - 1])
        + (if IsStaleCategoryLabel(cfg, category, last) then [last] else [])
  }

  /** The backport labels to add when some label about to be added is an
      auto-backport label: those of the two not already present. */
  function BackportLabelsToAdd(cfg: CiConfig, labels: seq<string>, adding: seq<string>): seq<string>
  {
    if exists i :: 0 <= i < |adding| && adding[i] in cfg.autoBackport then
      (if cfg.mustBackport !in labels then [cfg.mustBackport] else [])
      + (if cfg.mustBackportCloud !in labels then [cfg.mustBackportCloud] else [])
    else []
  }

  /** The labels `main` posts. */
  function LabelsToAdd(cfg: CiConfig, labels: seq<string>, category: string, submodulesChanged: bool): seq<string>
  {
    var adding := CategoryLabelToAdd(cfg, labels, category)
                  + (if submodulesChanged then [cfg.submoduleChanged] else []);
    adding + BackportLabelsToAdd(cfg, labels, adding)
  }

  /** The labels `main` removes. */
  function LabelsToRemove(cfg: CiConfig, labels: seq<string>, category: string, submodulesChanged: bool): seq<string>
  {
    StaleCategoryLabels(cfg, category, labels)
    + (if !submodulesChanged && cfg.submoduleChanged in labels then [cfg.submoduleChanged] else [])
  }

  /** The label changes `main` computes, built up by appending. */
  method ComputeLabelChanges(cfg: CiConfig, labels: seq<string>, category: string, submodulesChanged: bool)
    returns (toAdd: seq<string>, toRemove: seq<string>)
    ensures toAdd == LabelsToAdd(cfg, labels, category, submodulesChanged)
    ensures toRemove == LabelsToRemove(cfg, labels, category, submodulesChanged)
  {
    toAdd, toRemove := [], [];
    if category in cfg.categoryToLabel && cfg.categoryToLabel[category] !in labels {
      toAdd := toAdd + [cfg.categoryToLabel[category]];
    }
    var i := 0;
    while i < |labels|
      invariant 0 <= i <= |labels|
      invariant toRemove == StaleCategoryLabels(cfg, category, labels[..i])
    {
      assert labels[..i + 1][..i] == labels[..i];
      if IsStaleCategoryLabel(cfg, category, labels[i]) {
        toRemove := toRemove + [labels[i]];
      }
      i := i + 1;
    }
    assert labels[..|labels|] == labels;
    if submodulesChanged {
      toAdd := toAdd + [cfg.submoduleChanged];
    } else if cfg.submoduleChanged in labels {
      toRemove := toRemove + [cfg.submoduleChanged];
    }
    assert toAdd == CategoryLabelToAdd(cfg, labels, category)
                     + (if submodulesChanged then [cfg.submoduleChanged] else []);
    var autoBackport := false;
    var j := 0;
    while j < |toAdd|
      invariant 0 <= j <= |toAdd|
      invariant autoBackport <==> exists k :: 0 <= k < j && toAdd[k] in cfg.autoBackport
    {
      autoBackport := autoBackport || toAdd[j] in cfg.autoBackport;
      j := j + 1;
    }
    if autoBackport {
      var backportLabels := [cfg.mustBackport, cfg.mustBackportCloud];
      var k := 0;
      var missing: seq<string> := [];
      while k < |backportLabels|
        invariant 0 <= k <= |backportLabels|
        invariant missing == (if k >= 1 && cfg.mustBackport !in labels then [cfg.mustBackport] else [])
                             + (if k >= 2 && cfg.mustBackportCloud !in labels then [cfg.mustBackportCloud] else [])
      {
        if backportLabels[k] !in labels {
          missing := missing + [backportLabels[k]];
        }
        k := k + 1;
      }
      toAdd := toAdd + missing;
    }
  }

  /** Every stale category label is present and names another category. */
  lemma {:induction false} StaleCategoryLabelsFilter(cfg: CiConfig, category: string, labels: seq<string>, l: string)
    ensures l in StaleCategoryLabels(cfg, category, labels) <==> l in labels && IsStaleCategoryLabel(cfg, category, l)
    decreases |labels|
  {
    if labels != [] {
      var init := labels[..|labels| - 1];
      StaleCategoryLabelsFilter(cfg, category, init, l);
      assert labels == init + [labels[|labels| - 1]];
    }
  }

  /** Every removed label is present on the pull request. */
  lemma RemovedLabelsArePresent(cfg: CiConfig, labels: seq<string>, category: string, submodulesChanged: bool, l: string)
    requires l in LabelsToRemove(cfg, labels, category, submodulesChanged)
    ensures l in labels
  {
    StaleCategoryLabelsFilter(cfg, category, labels, l);
  }

  /** The category label is added exactly when the category is mapped and its
      label is absent, and the added category label is never removed. */
  lemma CategoryLabelAddedNotRemoved(cfg: CiConfig, labels: seq<string>, category: string, submodulesChanged: bool)
    ensures (category in cfg.categoryToLabel && cfg.categoryToLabel[category] !in labels) <==>
            |CategoryLabelToAdd(cfg, labels, category)| == 1
    ensures category in cfg.categoryToLabel ==>
              cfg.categoryToLabel[category] !in StaleCategoryLabels(cfg, category, labels)
  {
    if category in cfg.categoryToLabel {
      StaleCategoryLabelsFilter(cfg, category, labels, cfg.categoryToLabel[category]);
    }
  }

  /** The submodule label is added when submodules changed and otherwise
      removed if present; when it is not a category label, it is never both
      added and removed. */
  lemma SubmoduleLabelAddedOrRemoved(cfg: CiConfig, labels: seq<string>, category: string, submodulesChanged: bool)
    requires cfg.submoduleChanged !in cfg.categoryToLabel.Values
    ensures submodulesChanged ==> cfg.submoduleChanged in LabelsToAdd(cfg, labels, category, submodulesChanged)
    ensures cfg.submoduleChanged in LabelsToRemove(cfg, labels, category, submodulesChanged) <==>
            !submodulesChanged && cfg.submoduleChanged in labels
  {
    StaleCategoryLabelsFilter(cfg, category, labels, cfg.submoduleChanged);
    var adding := CategoryLabelToAdd(cfg, labels, category)
                  + (if submodulesChanged then [cfg.submoduleChanged] else []);
    if submodulesChanged {
      assert adding[|adding| - 1] == cfg.submoduleChanged;
    }
  }

  /** Backport labels are added exactly when a label being added is an
      auto-backport label: then each of the two that is absent is added, and
      only those. */
  lemma BackportLabelsExactlyWhenAutoBackport(cfg: CiConfig, labels: seq<string>, adding: seq<string>)
    ensures BackportLabelsToAdd(cfg, labels, adding) != [] ==>
              exists i :: 0 <= i < |adding| && adding[i] in cfg.autoBackport
    ensures forall l :: l in BackportLabelsToAdd(cfg, labels, adding) ==>
              l !in labels && (l == cfg.mustBackport || l == cfg.mustBackportCloud)
    ensures (exists i :: 0 <= i < |adding| && adding[i] in cfg.autoBackport) ==>
              && (cfg.mustBackport !in labels ==> cfg.mustBackport in BackportLabelsToAdd(cfg, labels, adding))
              && (cfg.mustBackportCloud !in labels ==> cfg.mustBackportCloud in BackportLabelsToAdd(cfg, labels, adding))
  {
  }

  /** No label is both added and removed, as long as the submodule label is
      not also a category label. */
  lemma {:induction false} AddedAndRemovedAreDisjoint(
    cfg: CiConfig, labels: seq<string>, category: string, submodulesChanged: bool, l: string)
    requires cfg.submoduleChanged !in cfg.categoryToLabel.Values
    requires l in LabelsToAdd(cfg, labels, category, submodulesChanged)
    ensures l !in LabelsToRemove(cfg, labels, category, submodulesChanged)
  {
    StaleCategoryLabelsFilter(cfg, category, labels, l);
    var adding := CategoryLabelToAdd(cfg, labels, category)
                  + (if submodulesChanged then [cfg.submoduleChanged] else []);
    assert l in adding || l in BackportLabelsToAdd(cfg, labels, adding);
  }

  function TemplateUrl(env: Environment): string
  {
    env.serverUrl + "/" + env.repository + "/blob/master/.github/PULL_REQUEST_TEMPLATE.md?plain=1"
  }

  /** A feature label without a documentation change. */
  predicate FeatureWithoutDocs(cfg: CiConfig, pr: PrInfo)
  {
    cfg.prFeature in pr.labels && !pr.hasChangesInDocumentation
  }

  /** `main`, from reading the pull request to its last commit status. The
      exits come in a fixed order: no pull request, a special pull request,
      a description error, then "cannot run"; a feature label without
      documentation only turns the status into a failure. */
  method RunMain(cfg: CiConfig, env: Environment, pr: PrInfo, check: DescriptionCheck)
    returns (report: Report)
    ensures pr.number == 0 ==> report == Report(1, [], [], [])
    ensures pr.number != 0 && HasSkipLabel(cfg, pr.labels) ==> report == Report(0, [], [], [])
    ensures pr.number != 0 && !HasSkipLabel(cfg, pr.labels) ==>
              && report.labelsAdded == LabelsToAdd(cfg, pr.labels, check.category, pr.hasChangesInSubmodules)
              && report.labelsRemoved == LabelsToRemove(cfg, pr.labels, check.category, pr.hasChangesInSubmodules)
    ensures pr.number != 0 && !HasSkipLabel(cfg, pr.labels) && HasDescriptionError(check) ==>
              && report.exitCode == 1
              && report.statuses == [CommitStatus(Failure, TemplateUrl(env), env.formatDescription(check.error), PrCheck)]
    ensures pr.number != 0 && !HasSkipLabel(cfg, pr.labels) && !HasDescriptionError(check) ==>
              && |report.statuses| >= 1
              && report.statuses[0] ==
                   if FeatureWithoutDocs(cfg, pr)
                   then CommitStatus(Failure, "", "expect adding docs for " + cfg.prFeature, PrCheck)
                   else CommitStatus(Success, "", env.formatDescription(ShouldRunCiForPr(cfg, pr).description), PrCheck)
    ensures pr.number != 0 && !HasSkipLabel(cfg, pr.labels) && !HasDescriptionError(check) && !ShouldRunCiForPr(cfg, pr).canRun ==>
              report.exitCode == 1 && |report.statuses| == 1
    ensures pr.number != 0 && !HasSkipLabel(cfg, pr.labels) && !HasDescriptionError(check) && ShouldRunCiForPr(cfg, pr).canRun ==>
              && report.exitCode == 0
              && report.statuses[1..] ==
                   if pr.isMergeQueue then []
                   else [CommitStatus(Pending, env.ciReportUrl, report.statuses[0].description, cfg.ciStatusName)]
    ensures report.exitCode == 0 <==>
              pr.number != 0 && (HasSkipLabel(cfg, pr.labels) || (!HasDescriptionError(check) && ShouldRunCiForPr(cfg, pr).canRun))
  {
    if pr.number == 0 {
      return Report(1, [], [], []);
    }
    var decision := ShouldRunCiForPr(cfg, pr);
    var canRun := decision.canRun;
    if canRun && HasSkipLabel(cfg, pr.labels) {
      return Report(0, [], [], []);
    }
    var description := env.formatDescription(decision.description);
    var status := Success;
    var toAdd, toRemove := ComputeLabelChanges(cfg, pr.labels, check.category, pr.hasChangesInSubmodules);

    if check.error != "" {
      status := Failure;
      var posted := CommitStatus(status, TemplateUrl(env), env.formatDescription(check.error), PrCheck);
      return Report(1, toAdd, toRemove, [posted]);
    }

    if cfg.prFeature in pr.labels && !pr.hasChangesInDocumentation {
      status := Failure;
      description := "expect adding docs for " + cfg.prFeature;
    }

    if !canRun {
      return Report(1, toAdd, toRemove, [CommitStatus(status, "", description, PrCheck)]);
    }

    var statuses := [CommitStatus(status, "", description, PrCheck)];
    if !pr.isMergeQueue {
      statuses := statuses + [CommitStatus(Pending, env.ciReportUrl, description, cfg.ciStatusName)];
    }
    return Report(0, toAdd, toRemove, statuses);
  }
}
