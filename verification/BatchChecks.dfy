/** What a batch call asks of an operation before it starts it. */
module BatchChecks {
  import opened Strings
  import opened Lifecycle
  import opened Operations
  import opened Pipeline
  import opened Numerals
  import CpiVersion

  /** The tenants with their TMS nodes, and what each tenant holds of each artifact right now. */
  datatype Landscape = Landscape(nodes: map<nat, nat>, designTime: map<(nat, string), CpiVersion.Answer>)

  function NodeOf(land: Landscape, tenant: nat): nat {
    if tenant in land.nodes then land.nodes[tenant] else 0
  }

  function Current(land: Landscape, tenant: nat, techId: string): CpiVersion.Answer {
    if (tenant, techId) in land.designTime then land.designTime[(tenant, techId)] else CpiVersion.Absent
  }

  /** The row may be imported into the target tenant now. */
  predicate Importable(row: Row, land: Landscape, target: nat) {
    && Startable(Import, row)
    && NodeOf(land, row.op.tenant) == NodeOf(land, target)
    && ToUint(row.op.tr).Some?
    && CpiVersion.Gate(row.op.version, Current(land, target, row.op.techId)) == CpiVersion.Pass
  }

  predicate Deployable(row: Row, target: nat) {
    Startable(Deploy, row) && row.op.tenant == target
  }

  predicate Accepts(phase: Phase, row: Row, land: Landscape, target: nat) {
    if phase == Import then Importable(row, land, target) else Deployable(row, target)
  }

  /** What an import into the target asks of a row: it waits or has failed, its tenant sits at the target's TMS node, its
      transport request is a number, and the target, if it can be asked, lacks the artifact or holds no later version. */
  ghost predicate MayImport(row: Row, land: Landscape, target: nat)
    requires target in land.nodes
  {
    && (row.op.importState == ImportQueued || row.op.importState == ImportFailed)
    && (if row.op.tenant in land.nodes then land.nodes[row.op.tenant] == land.nodes[target] else land.nodes[target] == 0)
    && (exists n: nat :: n <= MAX_UINT && IsNumeral(row.op.tr, n))
    && ((target, row.op.techId) in land.designTime ==>
          && land.designTime[(target, row.op.techId)] != CpiVersion.Unreachable
          && forall held | land.designTime[(target, row.op.techId)] == CpiVersion.Holds(held) ::
               CpiVersion.Compare(row.op.version, held) >= 0)
  }

  /** What a deployment asks: the row waits or has failed, and it is the target's own. */
  predicate MayDeploy(row: Row, target: nat) {
    (row.op.deployState == DeployQueued || row.op.deployState == DeployFailed) && row.op.tenant == target
  }

  ghost predicate May(phase: Phase, row: Row, land: Landscape, target: nat)
    requires target in land.nodes
  {
    if phase == Import then MayImport(row, land, target) else MayDeploy(row, target)
  }

  /** The checks of a batch are these. */
  lemma AcceptsIff(phase: Phase, row: Row, land: Landscape, target: nat)
    requires target in land.nodes
    ensures Accepts(phase, row, land, target) <==> May(phase, row, land, target)
  {
    if ToUint(row.op.tr).Some? { ToUintIff(row.op.tr, ToUint(row.op.tr).value); }
    if n: nat :| n <= MAX_UINT && IsNumeral(row.op.tr, n) { ToUintIff(row.op.tr, n); }
    hide CpiVersion.Compare, ToUint, IsNumeral;
  }

  /** An import that passes never takes the target to a lower release. */
  lemma NoDowngrade(row: Row, land: Landscape, target: nat, held: string)
    requires target in land.nodes && MayImport(row, land, target)
    requires (target, row.op.techId) in land.designTime && land.designTime[(target, row.op.techId)] == CpiVersion.Holds(held)
    ensures CpiVersion.TripleAtMost(held, row.op.version)
  {
    CpiVersion.CompareAntisymmetric(row.op.version, held);
    CpiVersion.CompareRefinesTriple(held, row.op.version);
    hide CpiVersion.Compare, CpiVersion.TripleAtMost, IsNumeral;
  }

  /** The target takes one version of an artifact after the other: each is imported while the target holds the one before,
      in whatever landscape. */
  ghost predicate Delivered(rows: seq<Row>, lands: seq<Landscape>, target: nat) {
    && |lands| == |rows|
    && (forall k | 0 <= k < |rows| :: target in lands[k].nodes && Accepts(Import, rows[k], lands[k], target))
    && (forall k | 0 < k < |rows| :: Current(lands[k], target, rows[k].op.techId) == CpiVersion.Holds(rows[k - 1].op.version))
  }

  /** However many deliveries follow each other, the release a target holds never goes down. */
  lemma DeliveriesNeverDowngrade(rows: seq<Row>, lands: seq<Landscape>, target: nat, i: nat, j: nat)
    requires Delivered(rows, lands, target) && i <= j < |rows|
    ensures CpiVersion.TripleAtMost(rows[i].op.version, rows[j].op.version)
  {
    var versions := seq(|rows|, k requires 0 <= k < |rows| => rows[k].op.version);
    hide ToUint, CpiVersion.TripleAtMost, CpiVersion.Compare;
    forall k | 0 <= k < |versions| - 1 ensures CpiVersion.Gate(versions[k + 1], CpiVersion.Holds(versions[k])) == CpiVersion.Pass {
      assert Accepts(Import, rows[k + 1], lands[k + 1], target);
    }
    CpiVersion.GateKeepsTriple(versions, i, j);
  }

  /** The row with the import or the deployment under way, and otherwise as it was. */
  function UnderWay(phase: Phase, row: Row): Row {
    match phase
    case Import => Row(row.op.(importState := ImportInProgress), row.request)
    case Deploy => Row(row.op.(deployState := DeployInProgress), row.request)
  }

  /** Passed over without a word. */
  predicate Passed(phase: Phase, row: Row) {
    if phase == Import then row.op.importState == ImportComplete else row.op.deployState == DeployDisabled
  }
}
