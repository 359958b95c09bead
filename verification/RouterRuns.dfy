/**
 The operations of a run, and the answers the theorems compare, are what the router's transactions do and return.
 */
module RouterRuns {
  import opened SiteRouter
  import opened SiteRouterCommands
  import opened SiteRouterRuns
  import opened RoutePlanner
  import Outbox
  import RadioCompaction
  import opened Router

  method Receives(r: Router, e: Envelope, now: Now, found: string, ghost cfg: Config) returns (outcome: Outcome)
    modifies r
    ensures r.Contents() == Perform(old(r.Contents()), Receive(e, now, found), cfg)
    ensures RadioCompaction.Answer(old(r.Contents()), Receive(e, now, found)) == [outcome]
  {
    outcome := r.Ingest(e, now, found);
  }

  method Issues(r: Router, e: Envelope, key: string, art: Artifacts, nodes: Nodes, priority: Outbox.Priority, now: Now,
                ghost cfg: Config)
    returns (outcome: Outcome, queueId: nat, ghost planning: Planning)
    requires r.queue.Valid()
    modifies r, r.queue
    ensures r.queue.Valid()
    ensures Ready(planning) <==> OutboundGate(art, nodes, e.request)
    ensures r.Contents() == Perform(old(r.Contents()), IssueOp(e, key, planning, priority, now), cfg)
    ensures RadioCompaction.Answer(old(r.Contents()), IssueOp(e, key, planning, priority, now)) == [outcome]
  {
    outcome, queueId, planning := r.IssueCommand(e, key, art, nodes, priority, now);
  }
}
