/** The vocabulary of the risk graph and its table of legal edges (`packages/domain/src/ontology.ts`). */
module Ontology {

  datatype NodeType =
    | ENTITY | ASSET | DEPENDENCY | RISK | HAZARD | EXPOSURE | EVENT | LOSS | POLICY | COVERAGE | PREMIUM | CLAIM
    | CAPITAL | SYNDICATE | REINSURANCE_CONTRACT | SETTLEMENT

  datatype EdgeType =
    | OWNS | DEPENDS_ON | EXPOSED_TO | MAY_CAUSE | COVERS | SUPPORTS | ASSUMES | PROTECTS | REPRESENTS | PAYS | SUBJECT_TO

  datatype EdgeRule = EdgeRule(edgeType: EdgeType, from: NodeType, to: NodeType, acyclic: bool)

  const EDGE_RULES: seq<EdgeRule> := [
    EdgeRule(OWNS, ENTITY, ASSET, false),
    EdgeRule(DEPENDS_ON, ASSET, ASSET, true),
    EdgeRule(EXPOSED_TO, ENTITY, RISK, false),
    EdgeRule(EXPOSED_TO, ASSET, RISK, false),
    EdgeRule(MAY_CAUSE, HAZARD, RISK, false),
    EdgeRule(MAY_CAUSE, RISK, EVENT, false),
    EdgeRule(MAY_CAUSE, EVENT, LOSS, false),
    EdgeRule(COVERS, POLICY, RISK, false),
    EdgeRule(COVERS, COVERAGE, RISK, false),
    EdgeRule(SUPPORTS, CAPITAL, SYNDICATE, false),
    EdgeRule(ASSUMES, SYNDICATE, RISK, false),
    EdgeRule(PROTECTS, REINSURANCE_CONTRACT, SYNDICATE, false),
    EdgeRule(PROTECTS, ENTITY, SYNDICATE, false),
    EdgeRule(REPRESENTS, CLAIM, LOSS, false),
    EdgeRule(PAYS, SETTLEMENT, CLAIM, false),
    EdgeRule(PAYS, SETTLEMENT, PREMIUM, false),
    EdgeRule(SUBJECT_TO, POLICY, PREMIUM, false)
  ]

  predicate IsEdgeAllowed(edgeType: EdgeType, from: NodeType, to: NodeType) {
    exists i :: 0 <= i < |EDGE_RULES| && EDGE_RULES[i].edgeType == edgeType && EDGE_RULES[i].from == from && EDGE_RULES[i].to == to
  }

  predicate IsAcyclicEdgeType(edgeType: EdgeType) {
    exists i :: 0 <= i < |EDGE_RULES| && EDGE_RULES[i].edgeType == edgeType && EDGE_RULES[i].acyclic
  }

  /** An order on node types that every rule but one climbs. */
  function TypeRank(t: NodeType): nat {
    match t
    case ASSET => 1
    case SYNDICATE => 1
    case CLAIM => 1
    case PREMIUM => 1
    case RISK => 2
    case EVENT => 3
    case LOSS => 4
    case _ => 0
  }

  /** The only legal edge that does not climb the order joins two assets, and DEPENDS_ON is the only acyclic type. */
  lemma LegalEdgesClimb(edgeType: EdgeType, from: NodeType, to: NodeType)
    requires IsEdgeAllowed(edgeType, from, to)
    ensures TypeRank(from) < TypeRank(to) || (edgeType == DEPENDS_ON && from == ASSET && to == ASSET)
  {
    AllowedMayLead(edgeType, from, to);
  }

  /** The legal triples, by what starts them. */
  predicate MayLead(from: NodeType, edgeType: EdgeType, to: NodeType) {
    match from
    case ENTITY => (edgeType == OWNS && to == ASSET) || (edgeType == EXPOSED_TO && to == RISK) || (edgeType == PROTECTS && to == SYNDICATE)
    case ASSET => (edgeType == DEPENDS_ON && to == ASSET) || (edgeType == EXPOSED_TO && to == RISK)
    case HAZARD => edgeType == MAY_CAUSE && to == RISK
    case RISK => edgeType == MAY_CAUSE && to == EVENT
    case EVENT => edgeType == MAY_CAUSE && to == LOSS
    case POLICY => (edgeType == COVERS && to == RISK) || (edgeType == SUBJECT_TO && to == PREMIUM)
    case COVERAGE => edgeType == COVERS && to == RISK
    case CAPITAL => edgeType == SUPPORTS && to == SYNDICATE
    case SYNDICATE => edgeType == ASSUMES && to == RISK
    case REINSURANCE_CONTRACT => edgeType == PROTECTS && to == SYNDICATE
    case CLAIM => edgeType == REPRESENTS && to == LOSS
    case SETTLEMENT => edgeType == PAYS && (to == CLAIM || to == PREMIUM)
    case _ => false
  }

  lemma AllowedMayLead(edgeType: EdgeType, from: NodeType, to: NodeType)
    requires IsEdgeAllowed(edgeType, from, to)
    ensures MayLead(from, edgeType, to)
  {
  }

  lemma RuleAllows(i: nat)
    requires i < |EDGE_RULES|
    ensures IsEdgeAllowed(EDGE_RULES[i].edgeType, EDGE_RULES[i].from, EDGE_RULES[i].to)
  {
  }

  lemma LeadIsAllowed(edgeType: EdgeType, from: NodeType, to: NodeType)
    requires MayLead(from, edgeType, to)
    ensures IsEdgeAllowed(edgeType, from, to)
  {
    match edgeType
    case OWNS => RuleAllows(0);
    case DEPENDS_ON => RuleAllows(1);
    case EXPOSED_TO => RuleAllows(2); RuleAllows(3);
    case MAY_CAUSE => RuleAllows(4); RuleAllows(5); RuleAllows(6);
    case COVERS => RuleAllows(7); RuleAllows(8);
    case SUPPORTS => RuleAllows(9);
    case ASSUMES => RuleAllows(10);
    case PROTECTS => RuleAllows(11); RuleAllows(12);
    case REPRESENTS => RuleAllows(13);
    case PAYS => RuleAllows(14); RuleAllows(15);
    case SUBJECT_TO => RuleAllows(16);
  }

  /** The table allows exactly these triples. */
  lemma RulesMeaning(edgeType: EdgeType, from: NodeType, to: NodeType)
    ensures IsEdgeAllowed(edgeType, from, to) <==> MayLead(from, edgeType, to)
  {
    if IsEdgeAllowed(edgeType, from, to) {
      AllowedMayLead(edgeType, from, to);
    }
    if MayLead(from, edgeType, to) {
      LeadIsAllowed(edgeType, from, to);
    }
  }

  /** Only entities own anything. */
  lemma OwnersAreEntities(from: NodeType, to: NodeType)
    requires IsEdgeAllowed(OWNS, from, to)
    ensures from == ENTITY
  {
    AllowedMayLead(OWNS, from, to);
  }

  lemma OnlyDependenciesAreAcyclic(edgeType: EdgeType)
    ensures IsAcyclicEdgeType(edgeType) <==> edgeType == DEPENDS_ON
  {
    assert EDGE_RULES[1].acyclic;
  }
}
