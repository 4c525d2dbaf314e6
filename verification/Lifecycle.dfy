/** The states an operation and a delivery request go through, and how the rolled-up status is derived. */
module Lifecycle {

  /** The request states the service writes; the row a sync adds carries none. */
  datatype RequestState = RequestUnset | RequestPending | RequestTrGenerating | RequestTrFailed

  datatype ImportState = ImportNotStarted | ImportQueued | ImportDisabled | ImportInProgress | ImportFailed | ImportComplete

  datatype DeployState = DeployNotStarted | DeployQueued | DeployDisabled | DeployInProgress | DeployFailed | DeployComplete

  /** AggUnset is the empty string a fresh row may carry. */
  datatype AggregateStatus =
    | AggUnset | AggUnknown | AggPending | AggWaitingApprove | AggInProgress | AggFailed
    | AggAwaitingImport | AggImporting | AggImportFailed | AggWaitingDeploy | AggDeploying | AggDeployFailed
    | AggDeployed | AggCanceled

  /** strings.ToUpper as far as it can produce ASCII letters. */
  function Upper(s: string): string {
    seq(|s|, i requires 0 <= i < |s| =>
      if 'a' <= s[i] <= 'z' then s[i] - 'a' + 'A'
      else if s[i] == '\U{131}' then 'I'
      else if s[i] == '\U{17f}' then 'S'
      else s[i])
  }

  function DeriveImport(status: string): ImportState {
    var state := Upper(status);
    if state == "INITIAL" || state == "REPEAT" then ImportQueued
    else if state == "RUNNING" then ImportInProgress
    else if state == "SUCCEEDED" || state == "WARNING" then ImportComplete
    else if state == "FATAL" || state == "FAILED" || state == "ERROR" then ImportFailed
    else ImportNotStarted
  }

  /** The letter has this capital; the dotless i and the long s share theirs with i and s. */
  predicate HasCapital(c: char, capital: char) {
    || c == capital
    || ('A' <= capital <= 'Z' && c == capital - 'A' + 'a')
    || (capital == 'I' && c == '\U{131}')
    || (capital == 'S' && c == '\U{17f}')
  }

  /** The text is this word, in whatever mix of capitals and small letters. */
  predicate Spells(text: string, word: string) {
    |text| == |word| && forall i | 0 <= i < |word| :: HasCapital(text[i], word[i])
  }

  lemma UpperSpells(text: string, word: string)
    requires forall i | 0 <= i < |word| :: 'A' <= word[i] <= 'Z'
    ensures Upper(text) == word <==> Spells(text, word)
  {
    if Upper(text) == word {
      forall i | 0 <= i < |word| ensures HasCapital(text[i], word[i]) { assert Upper(text)[i] == word[i]; }
    }
    if Spells(text, word) {
      forall i | 0 <= i < |word| ensures Upper(text)[i] == word[i] { assert HasCapital(text[i], word[i]); }
    }
  }

  predicate SaysDone(status: string) { Spells(status, "SUCCEEDED") || Spells(status, "WARNING") }

  predicate SaysFailed(status: string) { Spells(status, "FATAL") || Spells(status, "FAILED") || Spells(status, "ERROR") }

  predicate SaysRunning(status: string) { Spells(status, "RUNNING") }

  predicate SaysQueued(status: string) { Spells(status, "INITIAL") || Spells(status, "REPEAT") }

  /** What each word TMS may answer means, in whatever case it is written. */
  lemma DeriveImportIff(status: string)
    ensures DeriveImport(status) == ImportComplete <==> SaysDone(status)
    ensures DeriveImport(status) == ImportFailed <==> SaysFailed(status)
    ensures DeriveImport(status) == ImportInProgress <==> SaysRunning(status)
    ensures DeriveImport(status) == ImportQueued <==> SaysQueued(status)
    ensures DeriveImport(status) != ImportDisabled
  {
    UpperSpells(status, "SUCCEEDED");
    UpperSpells(status, "WARNING");
    UpperSpells(status, "FATAL");
    UpperSpells(status, "FAILED");
    UpperSpells(status, "ERROR");
    UpperSpells(status, "RUNNING");
    UpperSpells(status, "INITIAL");
    UpperSpells(status, "REPEAT");
    hide Upper, Spells;
  }

  predicate Any<T(==)>(values: seq<T>, targets: set<T>) {
    exists v | v in values :: v in targets
  }

  predicate All<T(==)>(values: seq<T>, allowed: set<T>) {
    values != [] && forall v | v in values :: v in allowed
  }

  function DeriveAggregateStatus(status: AggregateStatus, imports: seq<ImportState>, deploys: seq<DeployState>): AggregateStatus {
    if status == AggCanceled then AggCanceled
    else if imports == [] && deploys == [] then (if status != AggUnset then status else AggUnknown)
    else if Any(imports, {ImportFailed}) then AggImportFailed
    else if Any(imports, {ImportInProgress}) then AggImporting
    else if Any(imports, {ImportQueued}) then AggAwaitingImport
    else if All(imports, {ImportComplete, ImportDisabled}) then
      if Any(deploys, {DeployFailed}) then AggDeployFailed
      else if Any(deploys, {DeployInProgress}) then AggDeploying
      else if All(deploys, {DeployComplete, DeployDisabled}) then AggDeployed
      else AggWaitingDeploy
    else if status in {AggAwaitingImport, AggWaitingApprove, AggPending} then status
    else AggInProgress
  }

  ghost predicate SameElements<T(!new)>(a: seq<T>, b: seq<T>) {
    forall v :: v in a <==> v in b
  }

  lemma SameElementsEmpty<T(!new)>(a: seq<T>, b: seq<T>)
    requires SameElements(a, b)
    ensures a == [] <==> b == []
  {
    if a != [] { assert a[0] in b; }
    if b != [] { assert b[0] in a; }
  }

  /** Only which states occur matters, not how often or in what order. */
  lemma OnlyStateSetsMatter(status: AggregateStatus, imports: seq<ImportState>, deploys: seq<DeployState>,
                            imports': seq<ImportState>, deploys': seq<DeployState>)
    requires SameElements(imports, imports') && SameElements(deploys, deploys')
    ensures DeriveAggregateStatus(status, imports, deploys) == DeriveAggregateStatus(status, imports', deploys')
  {
    SameElementsEmpty(imports, imports');
    SameElementsEmpty(deploys, deploys');
  }

  lemma AggregateIdempotent(status: AggregateStatus, imports: seq<ImportState>, deploys: seq<DeployState>)
    ensures var once := DeriveAggregateStatus(status, imports, deploys);
            DeriveAggregateStatus(once, imports, deploys) == once
  {
  }

  /** DEPLOYED is derived exactly when every import and every deploy is over, successfully or because it is disabled. */
  lemma DeployedIff(status: AggregateStatus, imports: seq<ImportState>, deploys: seq<DeployState>)
    requires status != AggCanceled && imports != [] && deploys != []
    ensures DeriveAggregateStatus(status, imports, deploys) == AggDeployed
            <==> (forall v | v in imports :: v == ImportComplete || v == ImportDisabled)
                 && (forall v | v in deploys :: v == DeployComplete || v == DeployDisabled)
  {
  }

  const OPEN_IMPORTS := {ImportNotStarted, ImportQueued, ImportInProgress, ImportFailed}

  const OPEN_DEPLOYS := {DeployNotStarted, DeployQueued, DeployInProgress, DeployFailed}

  lemma OverOrOpen(imports: seq<ImportState>, deploys: seq<DeployState>)
    requires imports != [] && deploys != []
    ensures All(imports, {ImportComplete, ImportDisabled}) <==> !Any(imports, OPEN_IMPORTS)
    ensures All(deploys, {DeployComplete, DeployDisabled}) <==> !Any(deploys, OPEN_DEPLOYS)
  {
    if v :| v in imports && v !in {ImportComplete, ImportDisabled} {
      assert v.ImportNotStarted? || v.ImportQueued? || v.ImportInProgress? || v.ImportFailed?;
      assert v in OPEN_IMPORTS;
    }
    if v :| v in deploys && v !in {DeployComplete, DeployDisabled} {
      assert v.DeployNotStarted? || v.DeployQueued? || v.DeployInProgress? || v.DeployFailed?;
      assert v in OPEN_DEPLOYS;
    }
  }

  lemma SomeOrNone(imports: seq<ImportState>)
    ensures Any(imports, OPEN_IMPORTS) <==> Any(imports, {ImportNotStarted}) || Any(imports, {ImportQueued})
                                            || Any(imports, {ImportInProgress}) || Any(imports, {ImportFailed})
  {
    if v :| v in imports && v in OPEN_IMPORTS {
      assert v in {ImportNotStarted} || v in {ImportQueued} || v in {ImportInProgress} || v in {ImportFailed};
    }
    if v :| v in imports && v in {ImportNotStarted} { assert v in OPEN_IMPORTS; }
    if v :| v in imports && v in {ImportQueued} { assert v in OPEN_IMPORTS; }
    if v :| v in imports && v in {ImportInProgress} { assert v in OPEN_IMPORTS; }
    if v :| v in imports && v in {ImportFailed} { assert v in OPEN_IMPORTS; }
  }

  /** No import is waiting, under way or failed, and some has not begun. */
  predicate NoneLookedAt(imports: seq<ImportState>) {
    && Any(imports, {ImportNotStarted}) && !Any(imports, {ImportQueued})
    && !Any(imports, {ImportInProgress}) && !Any(imports, {ImportFailed})
  }

  /** When each status is derived while imports are open. */
  lemma ImportStatusIff(status: AggregateStatus, imports: seq<ImportState>, deploys: seq<DeployState>)
    requires status != AggCanceled && imports != [] && deploys != []
    ensures var derived := DeriveAggregateStatus(status, imports, deploys);
            && (derived == AggImportFailed <==> Any(imports, {ImportFailed}))
            && (derived == AggImporting <==> Any(imports, {ImportInProgress}) && !Any(imports, {ImportFailed}))
            && (derived == AggAwaitingImport <==>
                  || (Any(imports, {ImportQueued}) && !Any(imports, {ImportInProgress}) && !Any(imports, {ImportFailed}))
                  || (NoneLookedAt(imports) && status == AggAwaitingImport))
            && (derived == AggPending <==> NoneLookedAt(imports) && status == AggPending)
            && (derived == AggWaitingApprove <==> NoneLookedAt(imports) && status == AggWaitingApprove)
            && (derived == AggInProgress <==> NoneLookedAt(imports) && status !in {AggPending, AggWaitingApprove, AggAwaitingImport})
            && derived !in {AggUnset, AggUnknown, AggFailed, AggCanceled}
  {
    OverOrOpen(imports, deploys);
    SomeOrNone(imports);
    hide Any, All;
  }

  /** ... and when each is once none is. */
  lemma DeployStatusIff(status: AggregateStatus, imports: seq<ImportState>, deploys: seq<DeployState>)
    requires status != AggCanceled && imports != [] && deploys != []
    ensures var derived := DeriveAggregateStatus(status, imports, deploys);
            && (derived == AggDeployFailed <==> !Any(imports, OPEN_IMPORTS) && Any(deploys, {DeployFailed}))
            && (derived == AggDeploying <==>
                  !Any(imports, OPEN_IMPORTS) && Any(deploys, {DeployInProgress}) && !Any(deploys, {DeployFailed}))
            && (derived == AggWaitingDeploy <==>
                  && !Any(imports, OPEN_IMPORTS) && Any(deploys, OPEN_DEPLOYS)
                  && !Any(deploys, {DeployInProgress}) && !Any(deploys, {DeployFailed}))
            && (derived == AggDeployed <==> !Any(imports, OPEN_IMPORTS) && !Any(deploys, OPEN_DEPLOYS))
  {
    OverOrOpen(imports, deploys);
    SomeOrNone(imports);
    OpenDeploys(deploys);
    hide Any, All;
  }

  lemma OpenDeploys(deploys: seq<DeployState>)
    ensures Any(deploys, {DeployInProgress}) || Any(deploys, {DeployFailed}) ==> Any(deploys, OPEN_DEPLOYS)
  {
    if v :| v in deploys && v in {DeployInProgress} { assert v in OPEN_DEPLOYS; }
    if v :| v in deploys && v in {DeployFailed} { assert v in OPEN_DEPLOYS; }
  }
}
