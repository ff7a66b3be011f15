/** A plan meets what publishing it relies on. */
module SetPublishing {
  import opened Outcomes
  import opened Configuration
  import opened SetRequests
  import opened SetEffects
  import opened PlanSet
  import Publication

  lemma FdbKept(cfg: Configuration, ops: Ops)
    requires OpsOk(cfg.ports.Keys, cfg.vlans.Keys, ops)
    ensures forall v :: v in cfg.vlans && v in NextVlans(cfg.vlans, ops) ==> NextVlans(cfg.vlans, ops)[v].fdbId == cfg.vlans[v].fdbId
  {
    forall v | v in cfg.vlans && v in NextVlans(cfg.vlans, ops) { NextVlanAt(ops, cfg.ports.Keys, cfg.vlans, v); }
  }

  lemma PlanKeeps(cfg: Configuration, made: seq<Assignment>, plan: Plan)
    requires OpsOk(cfg.ports.Keys, cfg.vlans.Keys, OpsOf(made)) && IsPlan(cfg, made, plan)
    ensures Publication.Settable(cfg, plan.candidate, plan.affected)
  {
    FdbKept(cfg, OpsOf(made));
  }

  /** Every plan keeps hardware, FDB identifiers and the aging time, and names every port whose PVID it changes. */
  lemma PlanIsSettable(cfg: Configuration, d: Directory, includes: seq<Oid>, bindings: seq<Binding>, c: Configuration, plan: Plan)
    requires Valid(cfg) && Indexes(d, cfg.ports) && Answers(cfg, d, includes, bindings, c, Ok(plan))
    ensures Publication.Settable(cfg, plan.candidate, plan.affected)
  {
    AcceptedParts(cfg, d, includes, bindings);
    PlanKeeps(cfg, Request(cfg.vlans.Keys, d, includes, bindings).value, plan);
  }
}
