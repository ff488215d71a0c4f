/**
 Adding children to a package or removing them: the checks before the document is
 submitted, and the reconciliation of the relation read back afterwards.
 Models src/wbcz/aggregation.py, validate_lp_relation,
 validate_reaggregation_preconditions and AggregationReconciliationService.reconcile_relation.
 */
module Reaggregation {
  import opened Common

  datatype PackageType = UNIT | GROUP | BUNDLE | SET | BOX | ATK

  datatype Snapshot = Snapshot(
    cis: string, packageType: Option<PackageType>, productGroup: Option<string>,
    statusRaw: Option<string>, statusExRaw: Option<string>, ownerInn: Option<string>,
    emissionType: Option<string>, parent: Option<string>)

  datatype Problem = ManualReview(code: string) | ContractError(message: string)

  /** The arguments of the check, apart from the parent and the children; isDigit is str.isdigit of one character. */
  datatype Terms = Terms(
    isDigit: char -> bool, kind: string, participantInn: string, nestedBoxCodes: set<string>,
    remaining: seq<Snapshot>, leadingPg: string, mixedPg: bool, formedStatuses: set<string>)

  const M6_PG := "lp"
  const ADDING := "ADDING"
  const REMOVING := "REMOVING"

  /** The checks on participant_inn: a trimmed text of at most 12 characters, then 10 or 12 digits. */
  function InnProblem(terms: Terms): Option<Problem> {
    var inn := terms.participantInn;
    if inn == "" || IsSpace(inn[0]) || IsSpace(inn[|inn| - 1]) || |inn| > 12 then
      Some(ContractError("participant_inn must be a non-empty trimmed string"))
    else if |inn| !in {10, 12} || exists i :: 0 <= i < |inn| && !terms.isDigit(inn[i]) then
      Some(ContractError("participant_inn must be 10 or 12 digits"))
    else None
  }

  predicate Blank(text: Option<string>) {
    text in {None, Some("")}
  }

  /** A snapshot's product group as `child.product_group or "lp"`. */
  function GroupOrDefault(group: Option<string>): string {
    if Blank(group) then M6_PG else group.value
  }

  function LpRelationProblem(parent: PackageType, child: PackageType, childPg: string, mixedPg: bool): Option<Problem> {
    if child == BUNDLE && childPg != M6_PG then Some(ContractError("BUNDLE/KIK is supported only for lp"))
    else if parent == GROUP then Some(ManualReview("GROUP_PARENT_NOT_EXPOSED_FOR_LP"))
    else if parent == SET && child !in {UNIT, BUNDLE} then
      Some(ContractError("SET permits only UNIT or BUNDLE direct children for lp"))
    else if parent == BOX && child == GROUP && (!mixedPg || childPg == M6_PG) then
      Some(ContractError("GROUP child requires legitimate non-lp mixed-PG KITU"))
    else if parent == BOX && child != GROUP && child !in {UNIT, BUNDLE, SET, BOX} then
      Some(ContractError("incompatible BOX child"))
    else if parent == ATK && child == GROUP && childPg == M6_PG then
      Some(ContractError("lp GROUP must not be fabricated"))
    else if parent == ATK && child != GROUP && child !in {UNIT, BUNDLE, SET, BOX} then
      Some(ContractError("incompatible ATK child"))
    else None
  }

  function FormedOrIntroduced(status: Option<string>, terms: Terms): bool {
    status == Some("INTRODUCED") || (status.Some? && status.value in terms.formedStatuses)
  }

  function ParentProblem(parent: Snapshot, terms: Terms): Option<Problem> {
    var inn := InnProblem(terms);
    if inn.Some? then inn
    else if parent.packageType !in {Some(BOX), Some(SET)} then
      Some(ManualReview("REAGGREGATION_PARENT_NOT_SUPPORTED_FOR_LP"))
    else if parent.ownerInn != Some(terms.participantInn) then Some(ManualReview("LEGACY_NON_OWNER_FLOW_NOT_ENABLED"))
    else if terms.kind !in {ADDING, REMOVING} then Some(ContractError("reaggregation_type must be ADDING or REMOVING"))
    else None
  }

  function ParentStatusProblem(parent: Snapshot, terms: Terms): Option<Problem> {
    if terms.mixedPg then
      if parent.packageType != Some(BOX) then Some(ManualReview("MULTIPRODUCT_REAGGREGATION_REQUIRES_BOX_PARENT"))
      else if parent.statusRaw.None? || parent.statusRaw.value !in terms.formedStatuses then
        Some(ManualReview("MULTIPRODUCT_KITU_PARENT_STATUS_RUNTIME_CONFIRMATION_REQUIRED"))
      else if !Blank(parent.statusExRaw) then Some(ManualReview("MULTIPRODUCT_KITU_PARENT_STATUS_EX_NOT_SUPPORTED"))
      else None
    else if parent.statusRaw !in {Some("APPLIED"), Some("INTRODUCED")} then
      Some(ManualReview("REAGGREGATION_PARENT_STATUS_NOT_SUPPORTED"))
    else if !Blank(parent.statusExRaw) then Some(ManualReview("REAGGREGATION_PARENT_STATUS_EX_NOT_SUPPORTED"))
    else None
  }

  function ChildStatusProblem(parent: Snapshot, child: Snapshot, terms: Terms): Option<Problem> {
    if child.ownerInn != Some(terms.participantInn) then Some(ManualReview("LEGACY_NON_OWNER_FLOW_NOT_ENABLED"))
    else if terms.mixedPg then
      if !FormedOrIntroduced(child.statusRaw, terms) then
        Some(ManualReview("MULTIPRODUCT_KITU_CHILD_STATUS_NOT_CONFIRMED"))
      else if !Blank(child.statusExRaw) && child.statusExRaw != Some("WAIT_TRANSFER_TO_OWNER") then
        Some(ManualReview("MULTIPRODUCT_KITU_CHILD_STATUS_EX_NOT_SUPPORTED"))
      else if Blank(child.productGroup) then Some(ManualReview("KITU_CHILD_PRODUCT_GROUP_REQUIRED"))
      else None
    else if child.statusRaw != parent.statusRaw then Some(ManualReview("REAGGREGATION_STATUS_MISMATCH"))
    else if !Blank(child.statusExRaw)
            && !(child.cis in terms.nestedBoxCodes && child.statusExRaw == Some("WAIT_TRANSFER_TO_OWNER")) then
      Some(ManualReview("REAGGREGATION_STATUS_EX_NOT_SUPPORTED"))
    else if parent.statusRaw == Some("APPLIED") && child.emissionType in {Some("REMARK"), Some("REAPPLY")} then
      Some(ManualReview("REAGGREGATION_APPLIED_REMARK_REAPPLY_FORBIDDEN"))
    else None
  }

  function ChildProblem(parent: Snapshot, child: Snapshot, terms: Terms): Option<Problem>
    requires parent.packageType.Some?
  {
    var status := ChildStatusProblem(parent, child, terms);
    if status.Some? then status
    else if child.cis in terms.nestedBoxCodes
            && (child.packageType != Some(BOX) || parent.packageType != Some(BOX)) then
      Some(ContractError("kitu item is only valid for BOX inside BOX"))
    else if child.packageType.None? then Some(ManualReview("UNKNOWN_RAW_PACKAGE_TYPE"))
    else
      var relation := LpRelationProblem(parent.packageType.value, child.packageType.value,
                                        GroupOrDefault(child.productGroup), terms.mixedPg);
      if relation.Some? then relation
      else if terms.kind == ADDING && !Blank(child.parent) then Some(ManualReview("ADDING_CHILD_ALREADY_AGGREGATED"))
      else if terms.kind == REMOVING && child.parent != Some(parent.cis) then
        Some(ManualReview("REMOVING_CHILD_NOT_IN_PARENT"))
      else None
  }

  function RemainingProblem(child: Snapshot, terms: Terms): Option<Problem> {
    if child.ownerInn != Some(terms.participantInn) then Some(ManualReview("LEGACY_NON_OWNER_FLOW_NOT_ENABLED"))
    else if !FormedOrIntroduced(child.statusRaw, terms) then
      Some(ManualReview("MULTIPRODUCT_KITU_REMAINING_CHILD_STATUS_NOT_CONFIRMED"))
    else if !Blank(child.statusExRaw) && child.statusExRaw != Some("WAIT_TRANSFER_TO_OWNER") then
      Some(ManualReview("MULTIPRODUCT_KITU_REMAINING_STATUS_EX_NOT_SUPPORTED"))
    else if Blank(child.productGroup) then Some(ManualReview("KITU_CHILD_PRODUCT_GROUP_REQUIRED"))
    else None
  }

  ghost predicate UniqueCodes(children: seq<Snapshot>) {
    forall i, j :: 0 <= i < j < |children| ==> children[i].cis != children[j].cis
  }

  lemma PackageOfUnproblematicParent(parent: Snapshot, terms: Terms)
    ensures ParentProblem(parent, terms).None? ==> parent.packageType.Some?
  {
  }

  /** The parent and the presence of children are in order. */
  ghost predicate ParentFine(parent: Snapshot, children: seq<Snapshot>, terms: Terms) {
    ParentProblem(parent, terms).None? && children != [] && ParentStatusProblem(parent, terms).None?
  }

  ghost predicate ChildrenFine(parent: Snapshot, children: seq<Snapshot>, terms: Terms)
    requires parent.packageType.Some?
  {
    UniqueCodes(children) && forall i :: 0 <= i < |children| ==> ChildProblem(parent, children[i], terms).None?
  }

  ghost predicate SetFine(parent: Snapshot, children: seq<Snapshot>) {
    parent.packageType == Some(SET) ==>
      forall i :: 0 <= i < |children| ==> children[i].packageType in {Some(UNIT), Some(BUNDLE)}
  }

  ghost predicate RemainingFine(parent: Snapshot, terms: Terms) {
    parent.packageType == Some(BOX) && terms.mixedPg && terms.remaining != [] ==>
      && (forall i :: 0 <= i < |terms.remaining| ==> RemainingProblem(terms.remaining[i], terms).None?)
      && exists i :: 0 <= i < |terms.remaining| && terms.remaining[i].productGroup == Some(terms.leadingPg)
  }

  /** What the check accepts. */
  ghost predicate Acceptable(parent: Snapshot, children: seq<Snapshot>, terms: Terms) {
    && ParentFine(parent, children, terms) && ChildrenFine(parent, children, terms)
    && SetFine(parent, children) && RemainingFine(parent, terms)
  }

  /** The children before n are new codes without a problem, and the next one has problem p. */
  ghost predicate FirstProblemIs(parent: Snapshot, children: seq<Snapshot>, terms: Terms, n: nat, p: Problem)
    requires parent.packageType.Some?
  {
    && n < |children| && UniqueCodes(children[..n])
    && (forall i :: 0 <= i < n ==> ChildProblem(parent, children[i], terms).None?)
    && if exists j :: 0 <= j < n && children[j].cis == children[n].cis
       then p == ContractError("reaggregation children must be unique")
       else ChildProblem(parent, children[n], terms) == Some(p)
  }

  method CheckChildren(parent: Snapshot, children: seq<Snapshot>, terms: Terms) returns (r: Option<Problem>)
    requires parent.packageType.Some?
    ensures r.None? <==> ChildrenFine(parent, children, terms)
    ensures r.Some? ==> exists n :: FirstProblemIs(parent, children, terms, n, r.value)
  {
    hide ChildProblem;
    var seen: set<string> := {};
    for n := 0 to |children|
      invariant seen == set i | 0 <= i < n :: children[i].cis
      invariant UniqueCodes(children[..n])
      invariant forall i :: 0 <= i < n ==> ChildProblem(parent, children[i], terms).None?
    {
      var child := children[n];
      if child.cis in seen {
        assert FirstProblemIs(parent, children, terms, n, ContractError("reaggregation children must be unique"));
        return Some(ContractError("reaggregation children must be unique"));
      }
      seen := seen + {child.cis};
      var problem := ChildProblem(parent, child, terms);
      if problem.Some? {
        assert FirstProblemIs(parent, children, terms, n, problem.value);
        return problem;
      }
      assert children[..n + 1] == children[..n] + [child];
    }
    assert children[..|children|] == children;
    return None;
  }

  /** The remaining children before n have no problem, and the next one has problem p. */
  ghost predicate FirstRemainingProblemIs(terms: Terms, n: nat, p: Problem) {
    && n < |terms.remaining| && RemainingProblem(terms.remaining[n], terms) == Some(p)
    && forall i :: 0 <= i < n ==> RemainingProblem(terms.remaining[i], terms).None?
  }

  method ValidateReaggregationPreconditions(parent: Snapshot, children: seq<Snapshot>, terms: Terms)
    returns (r: Result<(), Problem>)
    ensures r.Ok? <==> Acceptable(parent, children, terms)
    ensures ParentProblem(parent, terms).None? ==> parent.packageType.Some?
    ensures ParentProblem(parent, terms).Some? ==> r == Err(ParentProblem(parent, terms).value)
    ensures ParentProblem(parent, terms).None? && children == [] ==>
              r == Err(ContractError("reaggregation children required"))
    ensures ParentProblem(parent, terms).None? && children != [] && ParentStatusProblem(parent, terms).Some? ==>
              r == Err(ParentStatusProblem(parent, terms).value)
    ensures ParentFine(parent, children, terms) && !ChildrenFine(parent, children, terms) ==>
              r.Err? && exists n :: FirstProblemIs(parent, children, terms, n, r.error)
    ensures ParentFine(parent, children, terms) && ChildrenFine(parent, children, terms)
            && !SetFine(parent, children) ==>
              r == Err(ContractError("SET transformation permits only UNIT/BUNDLE"))
    ensures ParentFine(parent, children, terms) && ChildrenFine(parent, children, terms) && SetFine(parent, children)
            && r.Err? ==>
              || (exists n :: FirstRemainingProblemIs(terms, n, r.error))
              || (&& r.error == ManualReview("KITU_LEADING_PG_CHILD_REQUIRED_AFTER_REMOVAL")
                  && forall i :: 0 <= i < |terms.remaining| ==>
                       && RemainingProblem(terms.remaining[i], terms).None?
                       && terms.remaining[i].productGroup != Some(terms.leadingPg))
  {
    hide ParentProblem, ParentStatusProblem, ChildProblem, RemainingProblem;
    PackageOfUnproblematicParent(parent, terms);
    var problem := ParentProblem(parent, terms);
    if problem.Some? {
      return Err(problem.value);
    }
    if children == [] {
      return Err(ContractError("reaggregation children required"));
    }
    problem := ParentStatusProblem(parent, terms);
    if problem.Some? {
      return Err(problem.value);
    }
    problem := CheckChildren(parent, children, terms);
    if problem.Some? {
      return Err(problem.value);
    }
    if parent.packageType == Some(SET)
       && exists i :: 0 <= i < |children| && children[i].packageType !in {Some(UNIT), Some(BUNDLE)} {
      return Err(ContractError("SET transformation permits only UNIT/BUNDLE"));
    }
    if parent.packageType == Some(BOX) && terms.mixedPg && terms.remaining != [] {
      for n := 0 to |terms.remaining|
        invariant forall i :: 0 <= i < n ==> RemainingProblem(terms.remaining[i], terms).None?
      {
        problem := RemainingProblem(terms.remaining[n], terms);
        if problem.Some? {
          assert FirstRemainingProblemIs(terms, n, problem.value);
          return Err(problem.value);
        }
      }
      if !exists i :: 0 <= i < |terms.remaining| && terms.remaining[i].productGroup == Some(terms.leadingPg) {
        return Err(ManualReview("KITU_LEADING_PG_CHILD_REQUIRED_AFTER_REMOVAL"));
      }
    }
    return Ok(());
  }

  // ---------- What acceptance guarantees ----------

  /** The participant's INN is ten or twelve digits, without white space at its ends. */
  ghost predicate InnAgrees(terms: Terms) {
    var inn := terms.participantInn;
    && (|inn| == 10 || |inn| == 12) && (forall i :: 0 <= i < |inn| ==> terms.isDigit(inn[i]))
    && !IsSpace(inn[0]) && !IsSpace(inn[|inn| - 1])
  }

  /** The parent is a box or a set of the participant, at rest, in a state the operation allows. */
  ghost predicate ParentAgrees(parent: Snapshot, terms: Terms) {
    && InnAgrees(terms)
    && (parent.packageType == Some(BOX) || (parent.packageType == Some(SET) && !terms.mixedPg))
    && parent.ownerInn == Some(terms.participantInn) && (terms.kind == "ADDING" || terms.kind == "REMOVING")
    && (parent.statusExRaw == None || parent.statusExRaw == Some(""))
    && parent.statusRaw.Some?
    && (if terms.mixedPg then parent.statusRaw.value in terms.formedStatuses
        else parent.statusRaw.value == "APPLIED" || parent.statusRaw.value == "INTRODUCED")
  }

  /** The child belongs to the participant and is in a state the operation allows. */
  ghost predicate ChildStateAgrees(parent: Snapshot, child: Snapshot, terms: Terms) {
    var waits := child.statusExRaw == Some("WAIT_TRANSFER_TO_OWNER");
    var rests := child.statusExRaw == None || child.statusExRaw == Some("");
    && child.ownerInn == Some(terms.participantInn)
    && if terms.mixedPg then
         && child.statusRaw.Some?
         && (child.statusRaw.value == "INTRODUCED" || child.statusRaw.value in terms.formedStatuses)
         && (rests || waits) && child.productGroup != None && child.productGroup != Some("")
       else
         && child.statusRaw == parent.statusRaw && (rests || (waits && child.cis in terms.nestedBoxCodes))
         && !(parent.statusRaw == Some("APPLIED")
              && (child.emissionType == Some("REMARK") || child.emissionType == Some("REAPPLY")))
  }

  /** The type of the child may stand in this parent. */
  ghost predicate ChildTypeAgrees(parent: Snapshot, child: Snapshot, terms: Terms) {
    var lp := child.productGroup == None || child.productGroup == Some("") || child.productGroup == Some("lp");
    && (parent.packageType == Some(SET) ==> child.packageType == Some(UNIT) || child.packageType == Some(BUNDLE))
    && (parent.packageType == Some(BOX) ==>
          || child.packageType == Some(UNIT) || child.packageType == Some(BUNDLE) || child.packageType == Some(SET)
          || child.packageType == Some(BOX) || (child.packageType == Some(GROUP) && terms.mixedPg && !lp))
    && (child.packageType == Some(BUNDLE) ==> lp)
  }

  /** The child may take part in the operation on this parent. */
  ghost predicate ChildAgrees(parent: Snapshot, child: Snapshot, terms: Terms) {
    && ChildStateAgrees(parent, child, terms) && ChildTypeAgrees(parent, child, terms)
    && (child.cis in terms.nestedBoxCodes ==> child.packageType == Some(BOX) && parent.packageType == Some(BOX))
    && (terms.kind == "ADDING" ==> child.parent == None || child.parent == Some(""))
    && (terms.kind == "REMOVING" ==> child.parent == Some(parent.cis))
  }

  /** A child that stays belongs to the participant and is in circulation or formed. */
  ghost predicate RemainingAgrees(child: Snapshot, terms: Terms) {
    && child.ownerInn == Some(terms.participantInn) && child.statusRaw.Some?
    && (child.statusRaw.value == "INTRODUCED" || child.statusRaw.value in terms.formedStatuses)
    && (child.statusExRaw == None || child.statusExRaw == Some("")
        || child.statusExRaw == Some("WAIT_TRANSFER_TO_OWNER"))
    && child.productGroup != None && child.productGroup != Some("")
  }

  lemma InnAgreesIff(terms: Terms)
    ensures InnAgrees(terms) <==> InnProblem(terms).None?
  {
  }

  lemma ParentAgreesIff(parent: Snapshot, terms: Terms)
    ensures ParentAgrees(parent, terms) <==>
              ParentProblem(parent, terms).None? && ParentStatusProblem(parent, terms).None?
  {
    InnAgreesIff(terms);
    hide InnAgrees, InnProblem;
  }

  lemma ChildStateAgreesIff(parent: Snapshot, child: Snapshot, terms: Terms)
    ensures ChildStateAgrees(parent, child, terms) <==> ChildStatusProblem(parent, child, terms).None?
  {
  }

  lemma LpRelationIff(parent: PackageType, child: PackageType, childPg: string, mixedPg: bool)
    requires parent in {BOX, SET}
    ensures LpRelationProblem(parent, child, childPg, mixedPg).None? <==>
              && (parent == SET ==> child == UNIT || child == BUNDLE) && (child == BUNDLE ==> childPg == M6_PG)
              && (parent == BOX ==> child != ATK && (child == GROUP ==> mixedPg && childPg != M6_PG))
  {
  }

  lemma ChildTypeAgreesIff(parent: Snapshot, child: Snapshot, terms: Terms)
    requires parent.packageType in {Some(BOX), Some(SET)} && child.packageType.Some?
    ensures ChildTypeAgrees(parent, child, terms) <==>
              LpRelationProblem(parent.packageType.value, child.packageType.value,
                                GroupOrDefault(child.productGroup), terms.mixedPg).None?
  {
    hide LpRelationProblem;
    LpRelationIff(parent.packageType.value, child.packageType.value, GroupOrDefault(child.productGroup), terms.mixedPg);
  }

  lemma ParentIsBoxOrSet(parent: Snapshot, terms: Terms)
    ensures ParentAgrees(parent, terms) ==> parent.packageType in {Some(BOX), Some(SET)}
    ensures ParentAgrees(parent, terms) ==> terms.kind in {"ADDING", "REMOVING"}
  {
  }

  lemma ChildAgreesIff(parent: Snapshot, child: Snapshot, terms: Terms)
    requires ParentAgrees(parent, terms)
    ensures ChildAgrees(parent, child, terms) <==> ChildProblem(parent, child, terms).None?
  {
    ParentIsBoxOrSet(parent, terms);
    hide ParentAgrees, ChildStateAgrees, ChildStatusProblem, LpRelationProblem, GroupOrDefault;
    ChildStateAgreesIff(parent, child, terms);
    if child.packageType.Some? {
      hide ChildTypeAgrees;
      ChildTypeAgreesIff(parent, child, terms);
    }
  }

  lemma RemainingAgreesIff(child: Snapshot, terms: Terms)
    ensures RemainingAgrees(child, terms) <==> RemainingProblem(child, terms).None?
  {
  }

  /** An operation is accepted exactly when every owner, status, type and place agrees. */
  lemma AcceptedIffAllAgree(parent: Snapshot, children: seq<Snapshot>, terms: Terms)
    ensures Acceptable(parent, children, terms) <==>
              && ParentAgrees(parent, terms) && children != []
              && (forall i, j :: 0 <= i < j < |children| ==> children[i].cis != children[j].cis)
              && (forall i :: 0 <= i < |children| ==> ChildAgrees(parent, children[i], terms))
              && (parent.packageType == Some(BOX) && terms.mixedPg && terms.remaining != [] ==>
                    && (forall i :: 0 <= i < |terms.remaining| ==> RemainingAgrees(terms.remaining[i], terms))
                    && exists i :: 0 <= i < |terms.remaining|
                                   && terms.remaining[i].productGroup == Some(terms.leadingPg))
  {
    hide ParentAgrees, ParentProblem, ParentStatusProblem, ChildAgrees, ChildProblem, RemainingAgrees, RemainingProblem;
    ParentAgreesIff(parent, terms);
    PackageOfUnproblematicParent(parent, terms);
    if ParentAgrees(parent, terms) {
      forall i | 0 <= i < |children|
        ensures ChildAgrees(parent, children[i], terms) <==> ChildProblem(parent, children[i], terms).None?
        ensures ChildAgrees(parent, children[i], terms) && parent.packageType == Some(SET) ==>
                  children[i].packageType in {Some(UNIT), Some(BUNDLE)}
      {
        ChildAgreesIff(parent, children[i], terms);
        if parent.packageType == Some(SET) {
          ChildOfSet(parent, children[i], terms);
        }
      }
    }
    forall i | 0 <= i < |terms.remaining|
      ensures RemainingAgrees(terms.remaining[i], terms) <==> RemainingProblem(terms.remaining[i], terms).None?
    {
      RemainingAgreesIff(terms.remaining[i], terms);
    }
  }

  lemma ChildOfSet(parent: Snapshot, child: Snapshot, terms: Terms)
    requires parent.packageType == Some(SET)
    ensures ChildAgrees(parent, child, terms) ==> child.packageType in {Some(UNIT), Some(BUNDLE)}
  {
  }

  // ---------- Reconciliation ----------

  datatype OperationKind =
    | FORM_TRANSPORT_PACKAGE | FORM_MULTIPRODUCT_TRANSPORT_PACKAGE | FORM_SET | FORM_SET_GENERIC_COMPATIBILITY
    | TRANSFORM_PACKAGE_ADD | TRANSFORM_PACKAGE_REMOVE | DISAGGREGATE_PACKAGE | OTHER_OPERATION

  datatype Semantic = AGGREGATION | DISAGGREGATION | AUTO_DISAGGREGATION | TRANSFORMATION | UNKNOWN_SEMANTIC

  datatype State = RECONCILIATION_PENDING | RECONCILED | MANUAL_REVIEW

  datatype Outcome = Outcome(state: State, reason: string, discoveredParent: Option<string>)

  /** What is read back after the document. */
  datatype Readback = Readback(
    actualChildren: seq<string>, childParents: Option<map<string, Option<string>>>,
    history: seq<Semantic>, parentStatusRaw: Option<string>)

  function Get(parents: map<string, Option<string>>, code: string): Option<string> {
    if code in parents then parents[code] else None
  }

  function Codes(codes: seq<string>): set<string> {
    set i | 0 <= i < |codes| :: codes[i]
  }

  predicate AllUnder(parents: Option<map<string, Option<string>>>, codes: set<string>, parent: Option<string>) {
    parents.Some? && forall c | c in codes :: Get(parents.value, c) == parent
  }

  predicate NoneUnder(parents: Option<map<string, Option<string>>>, codes: set<string>, parent: Option<string>) {
    parents.Some? && forall c | c in codes :: Get(parents.value, c) != parent
  }

  function ReconcileRelation(operation: OperationKind, documentStatus: Option<string>, expectedParent: Option<string>,
                             expectedChildren: seq<string>, removedChildren: seq<string>, back: Readback): Outcome
  {
    var actual, expected, removed := Codes(back.actualChildren), Codes(expectedChildren), Codes(removedChildren);
    var mismatch := Outcome(MANUAL_REVIEW, "RELATION_STATE_MISMATCH", expectedParent);
    if documentStatus != Some("CHECKED_OK") then Outcome(RECONCILIATION_PENDING, "DOCUMENT_NOT_CONFIRMED_SUCCESS", None)
    else match operation
      case TRANSFORM_PACKAGE_ADD =>
        if actual == expected && AllUnder(back.childParents, expected, expectedParent) then
          Outcome(RECONCILED, "ADD_RELATION_CONFIRMED", expectedParent)
        else mismatch
      case TRANSFORM_PACKAGE_REMOVE =>
        var removedOk := NoneUnder(back.childParents, removed, expectedParent);
        if expected == {} then
          if actual == {} && removedOk && AUTO_DISAGGREGATION in back.history && back.parentStatusRaw.Some? then
            Outcome(RECONCILED, "REMOVE_ALL_AUTO_DISAGGREGATION_CONFIRMED", expectedParent)
          else mismatch
        else if actual == expected && removed * actual == {} && removedOk
                && AllUnder(back.childParents, expected, expectedParent) then
          Outcome(RECONCILED, "REMOVE_RELATION_CONFIRMED", expectedParent)
        else mismatch
      case DISAGGREGATE_PACKAGE =>
        if actual == {} && NoneUnder(back.childParents, expected + removed, expectedParent)
           && (DISAGGREGATION in back.history || AUTO_DISAGGREGATION in back.history) && back.parentStatusRaw.Some? then
          Outcome(RECONCILED, "DISAGGREGATION_RELATION_HISTORY_STATE_READBACK_CONFIRMED", expectedParent)
        else mismatch
      case OTHER_OPERATION => mismatch
      case _ =>
        if actual == expected && AllUnder(back.childParents, expected, expectedParent) then
          Outcome(RECONCILED, "EXACT_RELATION_CONFIRMED", expectedParent)
        else mismatch
  }

  // ---------- The registry the documents act on ----------

  /** Who is packed in what: one parent a child, so the two directions cannot disagree. */
  type Registry = map<string, string>

  function ChildrenOf(registry: Registry, parent: string): set<string> {
    set c | c in registry && registry[c] == parent
  }

  /** A child's parent as the registry reports it: absent or empty when there is none. */
  ghost predicate ReportsParent(registry: Registry, code: string, parent: Option<string>) {
    if code in registry then parent == Some(registry[code]) else Blank(parent)
  }

  ghost predicate Describe(registry: Registry, children: seq<Snapshot>) {
    forall i :: 0 <= i < |children| ==> ReportsParent(registry, children[i].cis, children[i].parent)
  }

  /** A faithful readback of one package and of the listed children. */
  ghost predicate ReadsBack(registry: Registry, parent: string, codes: set<string>, back: Readback) {
    && Codes(back.actualChildren) == ChildrenOf(registry, parent)
    && back.childParents.Some?
    && forall c :: c in codes ==> ReportsParent(registry, c, Get(back.childParents.value, c))
  }

  function CodesOf(children: seq<Snapshot>): set<string> {
    set i | 0 <= i < |children| :: children[i].cis
  }

  function AfterAdding(registry: Registry, parent: string, children: set<string>): Registry {
    registry + map c | c in children :: parent
  }

  function AfterRemoving(registry: Registry, children: set<string>): Registry {
    registry - children
  }

  /** Where a confirmed ADD document ends. */
  function AddState(parent: string, expected: seq<string>, back: Readback): State {
    ReconcileRelation(TRANSFORM_PACKAGE_ADD, Some("CHECKED_OK"), Some(parent), expected, [], back).state
  }

  /** Where a confirmed REMOVE document ends. */
  function RemoveState(parent: string, expected: seq<string>, removed: seq<string>, back: Readback): State {
    ReconcileRelation(TRANSFORM_PACKAGE_REMOVE, Some("CHECKED_OK"), Some(parent), expected, removed, back).state
  }

  /** Whatever registry is read back, an ADD is reconciled exactly when the package holds the expected children. */
  lemma AddReconciledIffRelationHolds(registry: Registry, parent: string, expected: seq<string>, back: Readback)
    requires parent != "" && ReadsBack(registry, parent, Codes(expected), back)
    ensures AddState(parent, expected, back) == RECONCILED <==> ChildrenOf(registry, parent) == Codes(expected)
    ensures AddState(parent, expected, back) in {RECONCILED, MANUAL_REVIEW}
  {
    if ChildrenOf(registry, parent) == Codes(expected) {
      forall c | c in Codes(expected) ensures Get(back.childParents.value, c) == Some(parent) {
        assert c in ChildrenOf(registry, parent);
      }
    }
  }

  /** A REMOVE likewise; emptying the package also needs the auto-disaggregation event and a parent status. */
  lemma RemoveReconciledIffRelationHolds(registry: Registry, parent: string, expected: seq<string>,
                                         removed: seq<string>, back: Readback)
    requires parent != "" && Codes(expected) !! Codes(removed)
    requires ReadsBack(registry, parent, Codes(expected) + Codes(removed), back)
    ensures RemoveState(parent, expected, removed, back) == RECONCILED <==>
              && ChildrenOf(registry, parent) == Codes(expected)
              && (Codes(expected) == {} ==> AUTO_DISAGGREGATION in back.history && back.parentStatusRaw.Some?)
    ensures RemoveState(parent, expected, removed, back) in {RECONCILED, MANUAL_REVIEW}
  {
    if ChildrenOf(registry, parent) == Codes(expected) {
      forall c | c in Codes(expected) ensures Get(back.childParents.value, c) == Some(parent) {
        assert c in ChildrenOf(registry, parent);
      }
      forall c | c in Codes(removed) ensures Get(back.childParents.value, c) != Some(parent) {
        assert c !in ChildrenOf(registry, parent);
      }
    }
  }

  /** Forming a package is reconciled exactly when it holds the expected children. */
  lemma FormReconciledIffRelationHolds(registry: Registry, operation: OperationKind, parent: string,
                                       expected: seq<string>, back: Readback)
    requires operation in {FORM_TRANSPORT_PACKAGE, FORM_MULTIPRODUCT_TRANSPORT_PACKAGE, FORM_SET,
                           FORM_SET_GENERIC_COMPATIBILITY}
    requires parent != "" && ReadsBack(registry, parent, Codes(expected), back)
    ensures var state := ReconcileRelation(operation, Some("CHECKED_OK"), Some(parent), expected, [], back).state;
            state == (if ChildrenOf(registry, parent) == Codes(expected) then RECONCILED else MANUAL_REVIEW)
  {
    if ChildrenOf(registry, parent) == Codes(expected) {
      forall c | c in Codes(expected) ensures Get(back.childParents.value, c) == Some(parent) {
        assert c in ChildrenOf(registry, parent);
      }
    }
  }

  /** Taking a package apart is reconciled exactly when it is empty, its history says so and its status is known. */
  lemma DisaggregateReconciledIffEmpty(registry: Registry, parent: string, expected: seq<string>, removed: seq<string>,
                                       back: Readback)
    requires parent != "" && ReadsBack(registry, parent, Codes(expected) + Codes(removed), back)
    ensures var state :=
              ReconcileRelation(DISAGGREGATE_PACKAGE, Some("CHECKED_OK"), Some(parent), expected, removed, back).state;
            state == (if ChildrenOf(registry, parent) == {} && back.parentStatusRaw.Some?
                         && (DISAGGREGATION in back.history || AUTO_DISAGGREGATION in back.history)
                      then RECONCILED else MANUAL_REVIEW)
  {
    if ChildrenOf(registry, parent) == {} {
      forall c | c in Codes(expected) + Codes(removed) ensures Get(back.childParents.value, c) != Some(parent) {
        assert c !in ChildrenOf(registry, parent);
      }
    }
  }

  /** Without a document confirmed as CHECKED_OK nothing is concluded, whatever was read back. */
  lemma UnconfirmedIsPending(operation: OperationKind, status: Option<string>, parent: Option<string>,
                             expected: seq<string>, removed: seq<string>, back: Readback)
    ensures ReconcileRelation(operation, status, parent, expected, removed, back).state == RECONCILIATION_PENDING
            <==> status != Some("CHECKED_OK")
  {
  }

  /** What acceptance says about the children's places: none is in the parent before an ADD, all are before a REMOVE. */
  lemma AcceptedChildrenPlaces(registry: Registry, parent: Snapshot, children: seq<Snapshot>, terms: Terms)
    requires Acceptable(parent, children, terms) && Describe(registry, children) && parent.cis != ""
    ensures CodesOf(children) != {}
    ensures terms.kind == ADDING ==> CodesOf(children) !! ChildrenOf(registry, parent.cis)
    ensures terms.kind == REMOVING ==> CodesOf(children) <= ChildrenOf(registry, parent.cis)
  {
    hide ParentStatusProblem, ChildStatusProblem, RemainingProblem, LpRelationProblem;
    assert children[0].cis in CodesOf(children);
    forall i | 0 <= i < |children|
      ensures terms.kind == ADDING ==> children[i].cis !in ChildrenOf(registry, parent.cis)
      ensures terms.kind == REMOVING ==> children[i].cis in ChildrenOf(registry, parent.cis)
    {
      assert ChildProblem(parent, children[i], terms).None?;
    }
  }

  /** An accepted ADD is reconciled on the registry it produces, and never on the untouched one. */
  lemma AcceptedAddReconciles(registry: Registry, parent: Snapshot, children: seq<Snapshot>, terms: Terms,
                              expected: seq<string>, back: Readback, untouched: Readback)
    requires Acceptable(parent, children, terms) && terms.kind == ADDING
    requires parent.cis != "" && Describe(registry, children)
    requires Codes(expected) == ChildrenOf(registry, parent.cis) + CodesOf(children)
    requires ReadsBack(AfterAdding(registry, parent.cis, CodesOf(children)), parent.cis, Codes(expected), back)
    requires ReadsBack(registry, parent.cis, Codes(expected), untouched)
    ensures AddState(parent.cis, expected, back) == RECONCILED
    ensures AddState(parent.cis, expected, untouched) == MANUAL_REVIEW
  {
    hide AddState, RemoveState, Acceptable;
    AcceptedChildrenPlaces(registry, parent, children, terms);
    var after := AfterAdding(registry, parent.cis, CodesOf(children));
    AddReconciledIffRelationHolds(after, parent.cis, expected, back);
    AddReconciledIffRelationHolds(registry, parent.cis, expected, untouched);
    assert ChildrenOf(after, parent.cis) == Codes(expected);
    var added :| added in CodesOf(children);
    assert added in Codes(expected) && added !in ChildrenOf(registry, parent.cis);
  }

  /** An accepted REMOVE is reconciled on the registry it produces, and never on the untouched one. */
  lemma AcceptedRemoveReconciles(registry: Registry, parent: Snapshot, children: seq<Snapshot>, terms: Terms,
                                 expected: seq<string>, removed: seq<string>, back: Readback, untouched: Readback)
    requires Acceptable(parent, children, terms) && terms.kind == REMOVING
    requires parent.cis != "" && Describe(registry, children)
    requires Codes(removed) == CodesOf(children) && Codes(expected) == ChildrenOf(registry, parent.cis) - Codes(removed)
    requires ReadsBack(AfterRemoving(registry, Codes(removed)), parent.cis, Codes(expected) + Codes(removed), back)
    requires ReadsBack(registry, parent.cis, Codes(expected) + Codes(removed), untouched)
    ensures RemoveState(parent.cis, expected, removed, back) == RECONCILED <==>
              (Codes(expected) == {} ==> AUTO_DISAGGREGATION in back.history && back.parentStatusRaw.Some?)
    ensures RemoveState(parent.cis, expected, removed, untouched) == MANUAL_REVIEW
  {
    hide AddState, RemoveState, Acceptable;
    AcceptedChildrenPlaces(registry, parent, children, terms);
    var after := AfterRemoving(registry, Codes(removed));
    RemoveReconciledIffRelationHolds(after, parent.cis, expected, removed, back);
    RemoveReconciledIffRelationHolds(registry, parent.cis, expected, removed, untouched);
    assert ChildrenOf(after, parent.cis) == Codes(expected);
    var gone :| gone in CodesOf(children);
    assert gone !in Codes(expected) && gone in ChildrenOf(registry, parent.cis);
  }
}
