/**
 The route planner of the Site Router and the gate it puts in front of the outbox.
 Policy artifacts, radio budgets and profiles are parameters: every theorem holds for all of them.
 */
module RoutePlanner {
  import opened Wrappers
  import opened Airtime
  import Bytes
  import OnAir

  const PROFILE_NAME := "JP125_LONG_SF10"

  // ---------------------------------------------------------------------------------------------
  // Names: every name the planner compares with is a constructor, any other is `Other`

  /** `Lora` is the family name "lora", `LoraOther` any further name starting with "lora_". */
  datatype Bearer =
    | NoBearer | Unplanned | Lora | LoraDirect | LoraRelay | LoraMesh | LoraOther(suffix: string)
    | Wifi | WifiIp | WifiMesh | WifiLr | UsbCdc | BleMaintenance | HostLocal | BlockedBearer
    | OtherBearer(name: string)

  datatype Role =
    | SleepyLeaf | LoraRelayRole | MeshRouter | MeshRoot | DualBearerBridge | NoRole | OtherRole(name: string)

  datatype RouteClass =
    | NoClass | SleepyTinyControl | MaintenanceSync | LocalControl | BulkWifiOnly | CriticalAlert | RedundantCritical
    | LoraRelay1 | WifiMeshBackbone | SparseSummary | SleepyHeartbeat | NormalState | ControlEvent
    | OtherClass(name: string)

  datatype Reason =
    | ByDefault | LeasePrimaryBearer | ByPolicy | SleepyLeafFit | MaintenanceBearer | TargetNotSleepyLeaf
    | LeaseMissing | RoleForbidden | HopLimitZero | TtlExhausted | RelayNotAllowed | BearerForbidden
    | LoraForbidden | DeclaredSizeForbidden | CompactPayloadRequired | TooLargeForProfile | TooLargeForPolicy
    | BudgetUnavailable | EstimateFailed | AirtimeExceeded
    | NextHopIdRequired | InvalidFinalTargetId | FinalTargetIdRequired | ReplanFailed

  // ---------------------------------------------------------------------------------------------
  // Inputs

  datatype Policy = Policy(
    allowedBearers: seq<Bearer>, forbiddenBearers: seq<Bearer>, requiresTargetRole: seq<Role>,
    maxLoRaBodyBytes: Option<int>, allowRelay: bool, allowRedundant: bool, hopLimit: Option<int>)

  datatype Budget = Budget(profile: string, maxAirtimeMs: int)

  /** The policy and profile files; a file that cannot be read is `None`. */
  datatype Artifacts = Artifacts(
    policies: map<RouteClass, Policy>, profiles: Option<seq<Profile>>,
    budgetDefaults: Option<Budget>, budgets: map<RouteClass, Budget>, alwaysOnRoles: set<Role>)

  datatype Lease = Lease(shortId: Option<int>, role: Role, primary: Bearer, fallback: Bearer)

  /** `sleepyPower` is the verdict of the power and wake class texts. */
  datatype Manifest = Manifest(bearers: seq<Bearer>, roles: seq<Role>, sleepyPower: bool)

  datatype NodeInfo = NodeInfo(id: string, manifest: Option<Manifest>, lease: Option<Lease>)

  /** Encoded size of the body for LoRa; `refused` when a declared size is not accepted. */
  datatype BodySize = BodySize(bytes: int, refused: bool)

  /** How a route may be carried. */
  datatype Intent = Intent(allowRelay: bool, allowRedundant: bool, hopLimit: Option<int>)

  datatype Delivery = Delivery(routeClass: RouteClass, allowRelay: Option<bool>, allowRedundant: Option<bool>,
                               hopLimit: Option<int>)

  /** The payload facts of a sleepy compact command: whether it names a representable command with a
      one-octet argument, and its token. */
  datatype Compact = Compact(representable: bool, token: Option<int>)

  /** The facts of an envelope the planner looks at. */
  datatype Request = Request(
    toNode: bool, target: string, delivery: Delivery, hopCount: Option<int>, body: BodySize, compact: Compact,
    relayId: string, finalTargetId: string, finalTargetShortId: Option<int>)

  // ---------------------------------------------------------------------------------------------
  // Plans

  datatype RelayIds = RelayIds(nextHop: string, finalTarget: string, nextHopShort: Option<int>,
                               finalTargetShort: Option<int>)

  datatype RoutePlan = RoutePlan(routeClass: RouteClass, bearer: Bearer, intent: Intent, ids: RelayIds,
                                 payloadFit: bool, reason: Reason)

  datatype RouteStatus = RoutePending | RouteBlocked | ReadyToSend

  function RouteStatusForPlan(plan: RoutePlan): RouteStatus
  {
    if plan.bearer == NoBearer || plan.bearer == Unplanned then RoutePending
    else if !plan.payloadFit then RouteBlocked
    else ReadyToSend
  }

  function Blocked(plan: RoutePlan, reason: Reason): RoutePlan { plan.(payloadFit := false, reason := reason) }

  /** `replanErrorRoutePlan` */
  function ReplanError(routeClass: RouteClass): RoutePlan
  {
    RoutePlan(routeClass, BlockedBearer, Intent(false, false, None), RelayIds("", "", None, None), false, ReplanFailed)
  }

  // ---------------------------------------------------------------------------------------------
  // Bearers and roles

  function BearerLabel(lease: Option<Lease>): Bearer
  {
    if lease.None? || lease.value.primary == NoBearer then Unplanned
    else if lease.value.primary == Lora then LoraDirect
    else if lease.value.primary == Wifi then WifiIp
    else lease.value.primary
  }

  predicate IsLoRa(b: Bearer) { b.Lora? || b.LoraDirect? || b.LoraRelay? || b.LoraMesh? || b.LoraOther? }

  predicate IsRelay(b: Bearer) { b.LoraRelay? || b.LoraMesh? }

  predicate UsesHopLimit(b: Bearer) { IsRelay(b) || b.WifiMesh? }

  function ManifestName(b: Bearer): Bearer
  {
    match b
    case LoraDirect | LoraRelay | LoraMesh => Lora
    case WifiIp | WifiMesh | WifiLr => Wifi
    case _ => b
  }

  predicate AllowedBy(b: Bearer, candidate: Bearer, allowRelay: bool)
  {
    b == candidate || (allowRelay && IsRelay(b) && ManifestName(b) == ManifestName(candidate))
  }

  predicate ForbiddenBy(b: Bearer, candidate: Bearer)
  {
    b == candidate || (candidate.Lora? && IsLoRa(b)) || (candidate.Wifi? && ManifestName(b).Wifi?)
  }

  predicate SomeAllows(allowed: seq<Bearer>, b: Bearer, allowRelay: bool)
  {
    exists i :: 0 <= i < |allowed| && AllowedBy(b, allowed[i], allowRelay)
  }

  predicate SomeForbids(forbidden: seq<Bearer>, b: Bearer)
  {
    exists i :: 0 <= i < |forbidden| && ForbiddenBy(b, forbidden[i])
  }

  method BearerAllowed(b: Bearer, allowed: seq<Bearer>, allowRelay: bool) returns (r: bool)
    ensures r <==> SomeAllows(allowed, b, allowRelay)
  {
    for i := 0 to |allowed|
      invariant forall j :: 0 <= j < i ==> !AllowedBy(b, allowed[j], allowRelay)
    {
      if b == allowed[i] {
        return true;
      }
      if allowRelay && IsRelay(b) && ManifestName(b) == ManifestName(allowed[i]) {
        return true;
      }
    }
    r := false;
  }

  method BearerIsForbidden(b: Bearer, forbidden: seq<Bearer>) returns (r: bool)
    ensures r <==> SomeForbids(forbidden, b)
  {
    for i := 0 to |forbidden|
      invariant forall j :: 0 <= j < i ==> !ForbiddenBy(b, forbidden[j])
    {
      if b == forbidden[i] {
        return true;
      }
      if forbidden[i].Lora? && IsLoRa(b) {
        return true;
      }
      if forbidden[i].Wifi? && ManifestName(b).Wifi? {
        return true;
      }
    }
    r := false;
  }

  function PolicyOf(art: Artifacts, c: RouteClass): Option<Policy>
  {
    if c != NoClass && c in art.policies then Some(art.policies[c]) else None
  }

  function RequiredRoles(art: Artifacts, c: RouteClass): seq<Role>
  {
    var policy := PolicyOf(art, c);
    if policy.Some? && policy.value.requiresTargetRole != [] then policy.value.requiresTargetRole
    else
      match c
      case SleepyTinyControl | MaintenanceSync | SleepyHeartbeat => [SleepyLeaf]
      case LoraRelay1 => [LoraRelayRole]
      case WifiMeshBackbone => [MeshRouter, MeshRoot, DualBearerBridge]
      case _ => []
  }

  function RoleOf(info: NodeInfo): Role { if info.lease.Some? then info.lease.value.role else NoRole }

  predicate RoleAllowed(art: Artifacts, c: RouteClass, info: NodeInfo)
  {
    RequiredRoles(art, c) == [] || RoleOf(info) in RequiredRoles(art, c)
  }

  // ---------------------------------------------------------------------------------------------
  // The leases the registry admits

  predicate ShortIdInRange(id: Option<int>) { id.Some? ==> 1 <= id.value <= 0xFFFF }

  /** `validateLeaseAgainstManifest` */
  predicate LeaseFits(art: Artifacts, lease: Lease, manifest: Option<Manifest>)
  {
    && ShortIdInRange(lease.shortId)
    && (manifest.Some? ==>
          var m := manifest.value;
          && (m.roles != [] ==> lease.role in m.roles)
          && (lease.primary != NoBearer ==> ManifestName(lease.primary) in m.bearers)
          && (lease.fallback != NoBearer ==> ManifestName(lease.fallback) in m.bearers)
          && !(m.sleepyPower && lease.role in art.alwaysOnRoles))
  }

  /** The node tables. A lease is written only after `LeaseFits`, so its short id is in range. */
  datatype Nodes = Nodes(manifests: map<string, Manifest>, leases: map<string, Lease>)

  ghost predicate ValidNodes(nodes: Nodes)
  {
    forall id :: id in nodes.leases ==> ShortIdInRange(nodes.leases[id].shortId)
  }

  function UpsertManifest(nodes: Nodes, id: string, manifest: Manifest): Nodes
  {
    if id == "" then nodes else nodes.(manifests := nodes.manifests[id := manifest])
  }

  function UpsertLease(art: Artifacts, nodes: Nodes, id: string, lease: Lease): Nodes
  {
    var manifest := if id in nodes.manifests then Some(nodes.manifests[id]) else None;
    if id == "" || !LeaseFits(art, lease, manifest) then nodes
    else nodes.(leases := nodes.leases[id := lease])
  }

  lemma RegistryKeepsShortIdsInRange(art: Artifacts, nodes: Nodes, id: string, manifest: Manifest, lease: Lease)
    requires ValidNodes(nodes)
    ensures ValidNodes(UpsertManifest(nodes, id, manifest)) && ValidNodes(UpsertLease(art, nodes, id, lease))
  {
  }

  function Lookup(nodes: Nodes, id: string): NodeInfo
  {
    NodeInfo(id,
             if id != "" && id in nodes.manifests then Some(nodes.manifests[id]) else None,
             if id != "" && id in nodes.leases then Some(nodes.leases[id]) else None)
  }

  /**
   * Planning sees the latest registration of every node: a manifest always, a lease exactly if it fits the manifest
   * known at that time; a lease that does not fit leaves the one before in force.
   */
  lemma LatestRegistrationCounts(art: Artifacts, nodes: Nodes, id: string, manifest: Manifest, lease: Lease, n: string)
    ensures var info, seen := Lookup(nodes, n), Lookup(UpsertManifest(nodes, id, manifest), n);
            seen == if n == id != "" then info.(manifest := Some(manifest)) else info
    ensures var info, seen := Lookup(nodes, n), Lookup(UpsertLease(art, nodes, id, lease), n);
            seen == if n == id != "" && LeaseFits(art, lease, info.manifest) then info.(lease := Some(lease)) else info
  {
  }

  // ---------------------------------------------------------------------------------------------
  // Radio budget

  function BudgetFor(art: Artifacts, c: RouteClass): Option<Budget>
  {
    if art.budgetDefaults.None? then None
    else if c !in art.budgets then art.budgetDefaults
    else
      var base, own := art.budgetDefaults.value, art.budgets[c];
      Some(Budget(if own.profile != "" then own.profile else base.profile,
                  if own.maxAirtimeMs > 0 then own.maxAirtimeMs else base.maxAirtimeMs))
  }

  function Overhead(relayed: bool): int { if relayed then RELAYED_UPLINK_OVERHEAD else DIRECT_UPLINK_OVERHEAD }

  function Estimate(profiles: Option<seq<Profile>>, name: string, total: int): Option<int>
  {
    if profiles.None? || FindProfile(profiles.value, name).None? then None
    else
      match AirtimeMS(FindProfile(profiles.value, name).value, total)
      case Ok(ms) => Some(ms)
      case Err(_) => None
  }

  function BudgetProfile(budget: Budget): string { if budget.profile == "" then PROFILE_NAME else budget.profile }

  /** The airtime a class's budget profile gives a body, if the artifacts allow computing it. */
  function EstimatedAirtime(art: Artifacts, c: RouteClass, bytes: int, relayed: bool): Option<int>
  {
    var budget := BudgetFor(art, c);
    if budget.None? then None
    else Estimate(art.profiles, BudgetProfile(budget.value), bytes + Overhead(relayed))
  }

  /** The budget is known, the airtime computable and, if the budget has a limit, within it. */
  predicate WithinBudget(art: Artifacts, c: RouteClass, bytes: int, relayed: bool)
  {
    var airtime := EstimatedAirtime(art, c, bytes, relayed);
    && airtime.Some?
    && (BudgetFor(art, c).value.maxAirtimeMs > 0 ==> airtime.value <= BudgetFor(art, c).value.maxAirtimeMs)
  }

  /** `applyRadioBudgetToPlan` */
  method ApplyRadioBudget(art: Artifacts, plan0: RoutePlan, bytes: int, relayed: bool) returns (plan: RoutePlan)
    ensures plan == if bytes <= 0 || WithinBudget(art, plan0.routeClass, bytes, relayed) then plan0
                    else Blocked(plan0, plan.reason)
  {
    plan := plan0;
    if bytes <= 0 {
      return;
    }
    var overhead := DIRECT_UPLINK_OVERHEAD;
    if relayed {
      overhead := RELAYED_UPLINK_OVERHEAD;
    }
    var total := bytes + overhead;
    var budget := BudgetFor(art, plan.routeClass);
    if budget.None? {
      plan := Blocked(plan, BudgetUnavailable);
      return;
    }
    var name := budget.value.profile;
    if name == "" {
      name := PROFILE_NAME;
    }
    var airtime := Estimate(art.profiles, name, total);
    if airtime.None? {
      plan := Blocked(plan, EstimateFailed);
      return;
    }
    if budget.value.maxAirtimeMs > 0 && airtime.value > budget.value.maxAirtimeMs {
      plan := Blocked(plan, AirtimeExceeded);
    }
  }

  // ---------------------------------------------------------------------------------------------
  // The policy gate

  function AllowedList(art: Artifacts, c: Class): seq<Bearer>
  {
    var policy := PolicyOf(art, c.name);
    if policy.Some? && policy.value.allowedBearers != [] then policy.value.allowedBearers else c.defaultBearers
  }

  predicate LoRaRepresentable(art: Artifacts, c: Class)
  {
    var policy := PolicyOf(art, c.name);
    if policy.Some? then exists i :: 0 <= i < |policy.value.allowedBearers| && IsLoRa(policy.value.allowedBearers[i])
    else c.loraByDefault
  }

  /** The body cap of the fixed profile; unknown when the profile file lacks it or cannot be read. */
  function BodyCap(art: Artifacts, relayed: bool): Option<int>
  {
    if art.profiles.None? || FindProfile(art.profiles.value, PROFILE_NAME).None? then None
    else Some(FindProfile(art.profiles.value, PROFILE_NAME).value.totalPayloadCap - Overhead(relayed))
  }

  function Hops(req: Request): int { if req.hopCount.Some? then req.hopCount.value else 0 }

  /** A hop-limited bearer needs a non-zero limit, a relayed route hops left, and a relay bearer
      permission to relay. */
  predicate HopsAllow(intent: Intent, b: Bearer, hops: int)
  {
    && (intent.hopLimit.Some? && UsesHopLimit(b) ==>
          intent.hopLimit.value != 0 && (intent.allowRelay ==> hops < intent.hopLimit.value))
    && (IsRelay(b) ==> intent.allowRelay)
  }

  /** `applyRouteIntentToPlan` */
  method ApplyRouteIntent(plan0: RoutePlan, b: Bearer, hops: int) returns (plan: RoutePlan)
    ensures plan == if HopsAllow(plan0.intent, b, hops) then plan0 else Blocked(plan0, plan.reason)
  {
    plan := plan0;
    if plan.intent.hopLimit.Some? {
      if plan.intent.hopLimit.value == 0 && UsesHopLimit(b) {
        plan := Blocked(plan, HopLimitZero);
        return;
      }
      if plan.intent.allowRelay && UsesHopLimit(b) && hops >= plan.intent.hopLimit.value {
        plan := Blocked(plan, TtlExhausted);
        return;
      }
    }
    if IsRelay(b) && !plan.intent.allowRelay {
      plan := Blocked(plan, RelayNotAllowed);
    }
  }

  /** The parameters one policy route is planned with. */
  datatype Class = Class(name: RouteClass, defaultBearers: seq<Bearer>, loraByDefault: bool)

  /** The size side of the gate: every condition is an upper bound on the body. */
  predicate SizeFits(art: Artifacts, planned: RouteClass, c: Class, bytes: int, relayed: bool)
  {
    var cap, policy := BodyCap(art, relayed), PolicyOf(art, c.name);
    && (cap.Some? ==> bytes <= cap.value)
    && (policy.Some? && policy.value.maxLoRaBodyBytes.Some? ==> bytes <= policy.value.maxLoRaBodyBytes.value)
    && WithinBudget(art, planned, bytes, relayed)
  }

  predicate RelayIdsKnown(ids: RelayIds, info: NodeInfo, finalTargetShortId: Option<int>)
  {
    && info.lease.Some? && info.lease.value.shortId.Some?
    && (ids.finalTargetShort.Some? || (finalTargetShortId.Some? && 1 <= finalTargetShortId.value <= 0xFFFF))
  }

  predicate BearerPermitted(art: Artifacts, c: Class, b: Bearer, allowRelay: bool)
  {
    var policy, allowed := PolicyOf(art, c.name), AllowedList(art, c);
    && (policy.Some? ==> !SomeForbids(policy.value.forbiddenBearers, b))
    && SomeAllows(allowed, b, allowRelay)
  }

  predicate LoRaFits(art: Artifacts, req: Request, plan: RoutePlan, info: NodeInfo, c: Class, relayed: bool)
  {
    && LoRaRepresentable(art, c)
    && !req.body.refused && req.body.bytes > 0
    && SizeFits(art, plan.routeClass, c, req.body.bytes, relayed)
    && (relayed ==> RelayIdsKnown(plan.ids, info, req.finalTargetShortId))
  }

  /** What a route planned by policy must satisfy to be sent. */
  predicate Gate(art: Artifacts, req: Request, plan: RoutePlan, info: NodeInfo, c: Class)
  {
    var b := BearerLabel(info.lease);
    && b != Unplanned
    && RoleAllowed(art, c.name, info)
    && HopsAllow(plan.intent, b, Hops(req))
    && BearerPermitted(art, c, b, plan.intent.allowRelay)
    && (IsLoRa(b) ==> LoRaFits(art, req, plan, info, c, IsRelay(b)))
  }

  /** A ready relay route names its next hop and its final target. */
  function CompleteIds(req: Request, ids: RelayIds, info: NodeInfo): RelayIds
    requires RelayIdsKnown(ids, info, req.finalTargetShortId)
  {
    RelayIds(if ids.nextHop == "" then info.id else ids.nextHop,
             if ids.finalTarget == "" then req.finalTargetId else ids.finalTarget,
             info.lease.value.shortId,
             if ids.finalTargetShort.Some? then ids.finalTargetShort else req.finalTargetShortId)
  }

  /** `planPolicyRoute`: the plan comes out sendable exactly when the gate holds, and a sendable
      plan is the given one with the lease's bearer and, for a relay, both relay ids. */
  method PlanPolicyRoute(art: Artifacts, req: Request, plan0: RoutePlan, info: NodeInfo, c: Class)
    returns (plan: RoutePlan)
    requires plan0.payloadFit
    ensures plan.bearer == BearerLabel(info.lease)
    ensures plan.payloadFit <==> Gate(art, req, plan0, info, c)
    ensures plan.payloadFit ==>
              plan == plan0.(bearer := BearerLabel(info.lease), reason := ByPolicy,
                             ids := if IsRelay(plan.bearer) then CompleteIds(req, plan0.ids, info) else plan0.ids)
  {
    var b := BearerLabel(info.lease);
    plan := plan0.(bearer := b, reason := ByPolicy);
    if b == Unplanned {
      plan := Blocked(plan, LeaseMissing);
      return;
    }
    if !RoleAllowed(art, c.name, info) {
      plan := Blocked(plan, RoleForbidden);
      return;
    }
    plan := ApplyRouteIntent(plan, b, Hops(req));
    if !plan.payloadFit {
      return;
    }
    var permitted := PolicyPermits(art, c, b, plan.intent.allowRelay);
    if !permitted {
      plan := Blocked(plan, BearerForbidden);
      return;
    }
    if IsLoRa(b) {
      plan := PlanLoRa(art, req, plan, info, c, IsRelay(b));
    }
  }

  /** The bearer checks of `planPolicyRoute`, which block the plan for the same reason. */
  method PolicyPermits(art: Artifacts, c: Class, b: Bearer, allowRelay: bool) returns (permitted: bool)
    ensures permitted <==> BearerPermitted(art, c, b, allowRelay)
  {
    var policy := PolicyOf(art, c.name);
    var allowed := c.defaultBearers;
    if policy.Some? && policy.value.allowedBearers != [] {
      allowed := policy.value.allowedBearers;
    }
    if policy.Some? {
      var forbidden := BearerIsForbidden(b, policy.value.forbiddenBearers);
      if forbidden {
        return false;
      }
    }
    permitted := BearerAllowed(b, allowed, allowRelay);
  }

  /** The LoRa part of `planPolicyRoute`. */
  method PlanLoRa(art: Artifacts, req: Request, plan0: RoutePlan, info: NodeInfo, c: Class, relayed: bool)
    returns (plan: RoutePlan)
    requires plan0.payloadFit
    ensures plan.bearer == plan0.bearer
    ensures plan.payloadFit <==> LoRaFits(art, req, plan0, info, c, relayed)
    ensures plan.payloadFit ==> plan == plan0.(ids := if relayed then CompleteIds(req, plan0.ids, info) else plan0.ids)
  {
    plan := plan0;
    var policy := PolicyOf(art, c.name);
    if !LoRaRepresentable(art, c) {
      plan := Blocked(plan, LoraForbidden);
      return;
    }
    if req.body.refused {
      plan := Blocked(plan, DeclaredSizeForbidden);
      return;
    }
    if req.body.bytes <= 0 {
      plan := Blocked(plan, CompactPayloadRequired);
      return;
    }
    var cap := BodyCap(art, relayed);
    if cap.Some? && req.body.bytes > cap.value {
      plan := Blocked(plan, TooLargeForProfile);
      return;
    }
    if policy.Some? && policy.value.maxLoRaBodyBytes.Some? && req.body.bytes > policy.value.maxLoRaBodyBytes.value {
      plan := Blocked(plan, TooLargeForPolicy);
      return;
    }
    plan := ApplyRadioBudget(art, plan, req.body.bytes, relayed);
    if plan.payloadFit && relayed {
      plan := PlanRelayIds(req, plan, info);
    }
  }

  /** The last part of `planPolicyRoute`, for relay bearers. */
  method PlanRelayIds(req: Request, plan0: RoutePlan, info: NodeInfo) returns (plan: RoutePlan)
    requires plan0.payloadFit
    ensures plan.bearer == plan0.bearer
    ensures plan.payloadFit <==> RelayIdsKnown(plan0.ids, info, req.finalTargetShortId)
    ensures plan.payloadFit ==> plan == plan0.(ids := CompleteIds(req, plan0.ids, info))
  {
    plan := plan0;
    if info.lease.None? || info.lease.value.shortId.None? {
      plan := Blocked(plan, NextHopIdRequired);
      return;
    }
    var ids := plan.ids.(nextHopShort := info.lease.value.shortId);
    if ids.nextHop == "" {
      ids := ids.(nextHop := info.id);
    }
    if ids.finalTarget == "" {
      ids := ids.(finalTarget := req.finalTargetId);
    }
    if ids.finalTargetShort.None? && req.finalTargetShortId.Some? {
      if req.finalTargetShortId.value <= 0 || req.finalTargetShortId.value > 0xFFFF {
        plan := Blocked(plan.(ids := ids), InvalidFinalTargetId);
        return;
      }
      ids := ids.(finalTargetShort := req.finalTargetShortId);
    }
    plan := plan.(ids := ids);
    if ids.finalTargetShort.None? {
      plan := Blocked(plan, FinalTargetIdRequired);
    }
  }

  // ---------------------------------------------------------------------------------------------
  // Planning an envelope

  /** The classes planned by policy, with the bearers used when the policy names none. */
  function PolicyClass(c: RouteClass): Option<Class>
  {
    match c
    case LocalControl => Some(Class(c, [Wifi, WifiIp, UsbCdc], false))
    case BulkWifiOnly => Some(Class(c, [Wifi, WifiIp, WifiMesh], false))
    case CriticalAlert => Some(Class(c, [Wifi, WifiIp, LoraDirect], true))
    case RedundantCritical => Some(Class(c, [Wifi, WifiIp, WifiMesh, LoraDirect, LoraRelay], true))
    case LoraRelay1 => Some(Class(c, [LoraRelay], true))
    case WifiMeshBackbone => Some(Class(c, [WifiMesh], false))
    case SparseSummary => Some(Class(c, [LoraDirect, Wifi, WifiIp], true))
    case SleepyHeartbeat => Some(Class(c, [LoraDirect, Wifi, WifiIp], true))
    case NormalState => Some(Class(c, [Wifi, WifiIp, LoraDirect], true))
    case ControlEvent => Some(Class(c, [Wifi, WifiIp], false))
    case _ => None
  }

  /** `applyRouteClassDefaults`: what the delivery leaves open comes from the policy, or from the
      class when there is no policy. */
  function IntentOf(art: Artifacts, d: Delivery): Intent
  {
    var policy := PolicyOf(art, d.routeClass);
    Intent(
      if d.allowRelay.Some? then d.allowRelay.value
      else if policy.Some? then policy.value.allowRelay
      else d.routeClass.LoraRelay1? || d.routeClass.WifiMeshBackbone? || d.routeClass.RedundantCritical?,
      if d.allowRedundant.Some? then d.allowRedundant.value
      else if policy.Some? then policy.value.allowRedundant
      else d.routeClass.CriticalAlert? || d.routeClass.RedundantCritical?,
      if d.hopLimit.Some? then d.hopLimit
      else if policy.Some? then policy.value.hopLimit
      else if d.routeClass.LoraRelay1? then Some(1)
      else if d.routeClass.RedundantCritical? then Some(2)
      else None)
  }

  /** Does the request go through a relay other than its target? */
  predicate ViaRelay(req: Request)
  {
    req.delivery.routeClass.LoraRelay1? && req.relayId != "" && req.relayId != req.target
  }

  /** The node whose lease decides a policy route: the target, or the relay in front of it. */
  function DecidingNode(nodes: Nodes, req: Request): NodeInfo
  {
    if ViaRelay(req) then Lookup(nodes, req.relayId) else Lookup(nodes, req.target)
  }

  function InitialIds(nodes: Nodes, req: Request): RelayIds
  {
    if !ViaRelay(req) then RelayIds("", "", None, None)
    else
      var final := Lookup(nodes, req.target);
      RelayIds(req.relayId, req.target, None, if final.lease.Some? then final.lease.value.shortId else None)
  }

  function PolicyStart(art: Artifacts, nodes: Nodes, req: Request): RoutePlan
  {
    RoutePlan(req.delivery.routeClass, NoBearer, IntentOf(art, req.delivery), InitialIds(nodes, req), true, ByDefault)
  }

  predicate NodeConsistent(art: Artifacts, info: NodeInfo)
  {
    info.lease.Some? && info.manifest.Some? ==> LeaseFits(art, info.lease.value, info.manifest)
  }

  /** A compact command occupies header and five octets on the air. */
  const COMPACT_COMMAND_BYTES := OnAir.HEADER_SIZE + 5

  lemma CompactCommandLength(target: Bytes.u16, sequence: Bytes.byte, b: OnAir.Body)
    requires b.CompactCommand?
    ensures |OnAir.Layout(OnAir.Normal(OnAir.TypedPacket(target, false, sequence, b)))| == COMPACT_COMMAND_BYTES
  {
  }

  /** The compact command can be built for the leaf. */
  predicate SleepyWire(art: Artifacts, req: Request, info: NodeInfo)
  {
    && (info.manifest.Some? ==> Lora in info.manifest.value.bearers)
    && info.lease.Some? && BearerLabel(info.lease) == LoraDirect
    && info.lease.value.shortId.Some? && ShortIdInRange(info.lease.value.shortId)
    && info.lease.value.role == SleepyLeaf
    && req.compact.representable && req.compact.token.Some? && 1 <= req.compact.token.value <= 0xFFFF
    && art.profiles.Some? && FindProfile(art.profiles.value, PROFILE_NAME).Some?
    && COMPACT_COMMAND_BYTES <= FindProfile(art.profiles.value, PROFILE_NAME).value.totalPayloadCap
  }

  /** A sleepy leaf can be commanded over LoRa. */
  predicate SleepyGate(art: Artifacts, req: Request, info: NodeInfo)
  {
    SleepyWire(art, req, info) && WithinBudget(art, SleepyTinyControl, COMPACT_COMMAND_BYTES, false)
  }

  /** When an envelope gets a route it may be sent on. */
  predicate OutboundGate(art: Artifacts, nodes: Nodes, req: Request)
  {
    var info := Lookup(nodes, req.target);
    !req.toNode
    || (&& NodeConsistent(art, info)
        && match req.delivery.routeClass
           case NoClass => BearerLabel(info.lease) != Unplanned && !IsLoRa(BearerLabel(info.lease))
           case SleepyTinyControl => SleepyGate(art, req, info)
           case MaintenanceSync =>
             && info.lease.Some? && info.lease.value.role == SleepyLeaf
             && (info.manifest.Some? ==> BleMaintenance in info.manifest.value.bearers)
           case c =>
             && PolicyClass(c).Some?
             && NodeConsistent(art, DecidingNode(nodes, req))
             && Gate(art, req, PolicyStart(art, nodes, req), DecidingNode(nodes, req), PolicyClass(c).value))
  }

  /** When planning ends in an error instead of a plan. */
  predicate GivesUp(art: Artifacts, nodes: Nodes, req: Request)
  {
    var info := Lookup(nodes, req.target);
    && req.toNode
    && (!NodeConsistent(art, info)
        || match req.delivery.routeClass
           case NoClass => IsLoRa(BearerLabel(info.lease))
           case SleepyTinyControl => !SleepyWire(art, req, info)
           case MaintenanceSync =>
             && info.lease.Some? && info.lease.value.role == SleepyLeaf
             && info.manifest.Some? && BleMaintenance !in info.manifest.value.bearers
           case c => PolicyClass(c).None? || !NodeConsistent(art, DecidingNode(nodes, req)))
  }

  /** A plan waits when the node that decides has no lease with a bearer; control and maintenance of a sleepy
      leaf do not use that bearer. */
  predicate Waits(art: Artifacts, nodes: Nodes, req: Request)
  {
    var info := DecidingNode(nodes, req);
    && req.toNode && !GivesUp(art, nodes, req) && BearerLabel(info.lease) == Unplanned
    && !req.delivery.routeClass.SleepyTinyControl?
    && (req.delivery.routeClass.MaintenanceSync? ==> info.lease.None? || info.lease.value.role != SleepyLeaf)
  }

  datatype Refusal =
    | LeaseUnfit | ExplicitClassRequired | NoMaintenanceBearer | UnsupportedClass | NoLoRaSupport | PrimaryNotLoRaDirect
    | ShortIdRequired | NotSleepyLeaf | TokenRequired | NotRepresentable | UnknownProfile | ExceedsCap

  /** A plan, or the error with which planning gives up. */
  datatype Planning = Planned(plan: RoutePlan) | Refused(why: Refusal)

  predicate Ready(r: Planning) { r.Planned? && RouteStatusForPlan(r.plan) == ReadyToSend }

  /** `planOutboundRoute`: an error, or a plan whose status says whether it may be sent. */
  method PlanOutboundRoute(art: Artifacts, nodes: Nodes, req: Request) returns (r: Planning)
    ensures Ready(r) <==> OutboundGate(art, nodes, req)
    ensures r.Refused? <==> GivesUp(art, nodes, req)
    ensures r.Planned? && RouteStatusForPlan(r.plan) == RoutePending <==> Waits(art, nodes, req)
    ensures Ready(r) ==> && r.plan.payloadFit && r.plan.routeClass == req.delivery.routeClass
                         && PlannedFrom(art, nodes, req, r.plan)
  {
    var d := req.delivery;
    var plan := RoutePlan(d.routeClass, NoBearer,
                          Intent(d.allowRelay == Some(true), d.allowRedundant == Some(true), d.hopLimit),
                          NO_IDS, true, ByDefault);
    if !req.toNode {
      return Planned(plan.(bearer := HostLocal));
    }
    var info := Lookup(nodes, req.target);
    if info.lease.Some? && info.manifest.Some? && !LeaseFits(art, info.lease.value, info.manifest) {
      return Refused(LeaseUnfit);
    }
    if d.routeClass == NoClass {
      plan := plan.(bearer := BearerLabel(info.lease), reason := LeasePrimaryBearer);
      if IsLoRa(plan.bearer) {
        return Refused(ExplicitClassRequired);
      }
      return Planned(plan);
    }
    plan := plan.(intent := IntentOf(art, d));
    if d.routeClass == SleepyTinyControl {
      r := PlanSleepy(art, req, plan, info);
    } else if d.routeClass == MaintenanceSync {
      r := PlanMaintenance(plan, info);
    } else if PolicyClass(d.routeClass).None? {
      r := Refused(UnsupportedClass);
    } else {
      r := PlanClass(art, nodes, req, plan, PolicyClass(d.routeClass).value);
    }
  }

  /** The maintenance branch of `planOutboundRoute`. */
  method PlanMaintenance(plan0: RoutePlan, info: NodeInfo) returns (r: Planning)
    requires plan0.payloadFit
    ensures var leaf := info.lease.Some? && info.lease.value.role == SleepyLeaf;
            var allowed := info.manifest.Some? ==> BleMaintenance in info.manifest.value.bearers;
            r == if !leaf then Planned(Blocked(plan0.(bearer := BearerLabel(info.lease)), TargetNotSleepyLeaf))
                 else if !allowed then Refused(NoMaintenanceBearer)
                 else Planned(plan0.(bearer := BleMaintenance, reason := MaintenanceBearer))
  {
    if info.lease.None? || info.lease.value.role != SleepyLeaf {
      return Planned(Blocked(plan0.(bearer := BearerLabel(info.lease)), TargetNotSleepyLeaf));
    }
    if info.manifest.Some? && BleMaintenance !in info.manifest.value.bearers {
      return Refused(NoMaintenanceBearer);
    }
    r := Planned(plan0.(bearer := BleMaintenance, reason := MaintenanceBearer));
  }

  /** The classes planned by policy, and `planLoRaRelayOneHop`, which consults the relay's lease. */
  method PlanClass(art: Artifacts, nodes: Nodes, req: Request, plan0: RoutePlan, c: Class) returns (r: Planning)
    requires PolicyClass(req.delivery.routeClass) == Some(c) && NodeConsistent(art, Lookup(nodes, req.target))
    requires plan0 == PolicyStart(art, nodes, req).(ids := NO_IDS)
    ensures Ready(r) <==> NodeConsistent(art, DecidingNode(nodes, req))
                          && Gate(art, req, PolicyStart(art, nodes, req), DecidingNode(nodes, req), c)
    ensures r.Refused? <==> !NodeConsistent(art, DecidingNode(nodes, req))
    ensures r.Planned? ==> r.plan.bearer == BearerLabel(DecidingNode(nodes, req).lease)
    ensures Ready(r) ==> && r.plan.payloadFit && r.plan.routeClass == req.delivery.routeClass
                         && r.plan.intent == plan0.intent && r.plan.reason == ByPolicy
                         && var ids, info := InitialIds(nodes, req), DecidingNode(nodes, req);
                            && (IsRelay(r.plan.bearer) ==> RelayIdsKnown(ids, info, req.finalTargetShortId))
                            && r.plan.ids == if IsRelay(r.plan.bearer) then CompleteIds(req, ids, info) else ids
  {
    var info := Lookup(nodes, req.target);
    var deciding := info;
    var plan := plan0;
    if req.delivery.routeClass.LoraRelay1? && req.relayId != "" && req.relayId != req.target {
      deciding := Lookup(nodes, req.relayId);
      if deciding.lease.Some? && deciding.manifest.Some? && !LeaseFits(art, deciding.lease.value, deciding.manifest) {
        return Refused(LeaseUnfit);
      }
      var final := if info.lease.Some? then info.lease.value.shortId else None;
      plan := plan.(ids := RelayIds(req.relayId, req.target, None, final));
    }
    assert plan == PolicyStart(art, nodes, req);
    plan := PlanPolicyRoute(art, req, plan, deciding, c);
    r := Planned(plan);
  }

  method PlanSleepy(art: Artifacts, req: Request, plan0: RoutePlan, info: NodeInfo) returns (r: Planning)
    requires plan0.payloadFit && plan0.routeClass == SleepyTinyControl
    ensures r.Refused? <==> !SleepyWire(art, req, info)
    ensures Ready(r) <==> SleepyGate(art, req, info)
    ensures r.Planned? ==> r.plan.bearer == LoraDirect
    ensures Ready(r) ==> r.plan == plan0.(bearer := LoraDirect, reason := SleepyLeafFit)
  {
    if info.manifest.Some? && Lora !in info.manifest.value.bearers {
      return Refused(NoLoRaSupport);
    }
    assert [LoraDirect][0] == LoraDirect;
    if info.lease.Some? {
      var compatible := BearerAllowed(BearerLabel(info.lease), [LoraDirect], false);
      if !compatible {
        return Refused(PrimaryNotLoRaDirect);
      }
      assert BearerLabel(info.lease) == LoraDirect;
    }
    if info.lease.None? || info.lease.value.shortId.None? || !ShortIdInRange(info.lease.value.shortId) {
      return Refused(ShortIdRequired);
    }
    if info.lease.value.role != SleepyLeaf {
      return Refused(NotSleepyLeaf);
    }
    if req.compact.token.None? || req.compact.token.value <= 0 || req.compact.token.value > 0xFFFF {
      return Refused(TokenRequired);
    }
    if !req.compact.representable {
      return Refused(NotRepresentable);
    }
    if art.profiles.None? || FindProfile(art.profiles.value, PROFILE_NAME).None? {
      return Refused(UnknownProfile);
    }
    if COMPACT_COMMAND_BYTES > FindProfile(art.profiles.value, PROFILE_NAME).value.totalPayloadCap {
      return Refused(ExceedsCap);
    }
    var plan := plan0.(bearer := LoraDirect, reason := SleepyLeafFit);
    plan := ApplyRadioBudget(art, plan, COMPACT_COMMAND_BYTES, false);
    r := Planned(plan);
  }

  // ---------------------------------------------------------------------------------------------
  // What a sendable plan promises

  const NO_IDS := RelayIds("", "", None, None)

  /** What the delivery itself says; the defaults of a class come on top of it. */
  function DeclaredIntent(d: Delivery): Intent
  {
    Intent(d.allowRelay == Some(true), d.allowRedundant == Some(true), d.hopLimit)
  }

  /** A sendable plan was made from these inputs: it carries their bearer, intent and relay ids. */
  ghost predicate PlannedFrom(art: Artifacts, nodes: Nodes, req: Request, plan: RoutePlan)
  {
    && OutboundGate(art, nodes, req)
    && plan.payloadFit && plan.routeClass == req.delivery.routeClass
    && if !req.toNode then
         plan.bearer == HostLocal && plan.reason == ByDefault && plan.intent == DeclaredIntent(req.delivery)
         && plan.ids == NO_IDS
       else match plan.routeClass
         case NoClass =>
           && plan.bearer == BearerLabel(Lookup(nodes, req.target).lease) && plan.reason == LeasePrimaryBearer
           && plan.intent == DeclaredIntent(req.delivery) && plan.ids == NO_IDS
         case MaintenanceSync =>
           && plan.bearer == BleMaintenance && plan.reason == MaintenanceBearer
           && plan.intent == IntentOf(art, req.delivery) && plan.ids == NO_IDS
         case SleepyTinyControl =>
           && plan.bearer == LoraDirect && plan.reason == SleepyLeafFit
           && plan.intent == IntentOf(art, req.delivery) && plan.ids == NO_IDS
         case _ =>
           var ids, info := InitialIds(nodes, req), DecidingNode(nodes, req);
           && plan.bearer == BearerLabel(info.lease) && plan.reason == ByPolicy
           && plan.intent == IntentOf(art, req.delivery)
           && (IsRelay(plan.bearer) ==> RelayIdsKnown(ids, info, req.finalTargetShortId))
           && plan.ids == if IsRelay(plan.bearer) then CompleteIds(req, ids, info) else ids
  }

  /** The bearer of a sendable plan, class by class: the host itself for what is not for a node, the maintenance
      bearer for maintenance, direct LoRa for a sleepy leaf, and otherwise the bearer that the lease of the
      target, or of the relay in front of it, names first. */
  ghost predicate ExpectedBearer(nodes: Nodes, req: Request, plan: RoutePlan)
  {
    && (!req.toNode ==> plan.bearer == HostLocal)
    && (req.toNode && req.delivery.routeClass == MaintenanceSync ==> plan.bearer == BleMaintenance)
    && (req.toNode && req.delivery.routeClass == SleepyTinyControl ==> plan.bearer == LoraDirect)
    && (req.toNode && req.delivery.routeClass != MaintenanceSync && req.delivery.routeClass != SleepyTinyControl ==>
          var via := req.delivery.routeClass == LoraRelay1 && req.relayId != "" && req.relayId != req.target;
          var node := if via then req.relayId else req.target;
          && node != "" && node in nodes.leases
          && plan.bearer == match nodes.leases[node].primary
                            case Lora => LoraDirect
                            case Wifi => WifiIp
                            case own => own)
  }

  /** The intent of a sendable plan: what the delivery sets stands; what it leaves open is set by the policy of
      the class, and without a policy by the class itself. Without a class, and for what is not for a node,
      nothing is filled in. */
  predicate ExpectedIntent(art: Artifacts, req: Request, intent: Intent)
  {
    var d, c := req.delivery, req.delivery.routeClass;
    && (d.allowRelay.Some? ==> intent.allowRelay == d.allowRelay.value)
    && (d.allowRedundant.Some? ==> intent.allowRedundant == d.allowRedundant.value)
    && (d.hopLimit.Some? ==> intent.hopLimit == d.hopLimit)
    && if !req.toNode || c == NoClass then
         && (d.allowRelay.None? ==> !intent.allowRelay) && (d.allowRedundant.None? ==> !intent.allowRedundant)
         && (d.hopLimit.None? ==> intent.hopLimit.None?)
       else if c in art.policies then
         && (d.allowRelay.None? ==> intent.allowRelay == art.policies[c].allowRelay)
         && (d.allowRedundant.None? ==> intent.allowRedundant == art.policies[c].allowRedundant)
         && (d.hopLimit.None? ==> intent.hopLimit == art.policies[c].hopLimit)
       else
         && (d.allowRelay.None? ==>
               (intent.allowRelay <==> c == LoraRelay1 || c == WifiMeshBackbone || c == RedundantCritical))
         && (d.allowRedundant.None? ==> (intent.allowRedundant <==> c == CriticalAlert || c == RedundantCritical))
         && (d.hopLimit.None? ==> intent.hopLimit == if c == LoraRelay1 then Some(1)
                                                     else if c == RedundantCritical then Some(2) else None)
  }

  lemma ReadyPlanIsExpected(art: Artifacts, nodes: Nodes, req: Request, plan: RoutePlan)
    requires PlannedFrom(art, nodes, req, plan)
    ensures ExpectedBearer(nodes, req, plan) && ExpectedIntent(art, req, plan.intent)
  {
  }

  /** Safety of a sendable policy route in the words of the artifacts. */
  ghost predicate SafeRoute(art: Artifacts, req: Request, plan: RoutePlan, c: Class)
  {
    var policy, relayed, bytes := PolicyOf(art, c.name), IsRelay(plan.bearer), req.body.bytes;
    && SomeAllows(AllowedList(art, c), plan.bearer, plan.intent.allowRelay)
    && (policy.Some? ==> !SomeForbids(policy.value.forbiddenBearers, plan.bearer))
    && (relayed && plan.intent.hopLimit.Some? ==> Hops(req) < plan.intent.hopLimit.value)
    && (IsLoRa(plan.bearer) ==>
          && 0 < bytes
          && (BodyCap(art, relayed).Some? ==> bytes <= BodyCap(art, relayed).value)
          && (policy.Some? && policy.value.maxLoRaBodyBytes.Some? ==> bytes <= policy.value.maxLoRaBodyBytes.value)
          && WithinBudget(art, plan.routeClass, bytes, relayed))
    && (relayed ==> && plan.intent.allowRelay
                    && plan.ids.nextHopShort.Some? && 1 <= plan.ids.nextHopShort.value <= 0xFFFF
                    && plan.ids.finalTargetShort.Some? && 1 <= plan.ids.finalTargetShort.value <= 0xFFFF)
  }

  /** Every sendable policy route is allowed and not forbidden, has its target role, hops left on a
      relay, a body within every cap and the airtime budget, and relay ids that exist. */
  lemma ReadyRouteIsSafe(art: Artifacts, nodes: Nodes, req: Request, plan: RoutePlan)
    requires ValidNodes(nodes) && PlannedFrom(art, nodes, req, plan)
    requires req.toNode && PolicyClass(plan.routeClass).Some?
    ensures SafeRoute(art, req, plan, PolicyClass(plan.routeClass).value)
    ensures RoleAllowed(art, plan.routeClass, DecidingNode(nodes, req))
  {
    var info := DecidingNode(nodes, req);
    var c := PolicyClass(plan.routeClass).value;
    assert Gate(art, req, PolicyStart(art, nodes, req), info, c);
    assert c.name == plan.routeClass;
    if IsRelay(plan.bearer) {
      assert ShortIdInRange(info.lease.value.shortId);
      assert ShortIdInRange(InitialIds(nodes, req).finalTargetShort);
    }
  }

  /** The airtime limit is monotone: a shorter body stays within a budget the longer one met. */
  lemma BudgetMonotone(art: Artifacts, c: RouteClass, small: int, large: int, relayed: bool)
    requires 0 < small <= large && WithinBudget(art, c, large, relayed)
    ensures WithinBudget(art, c, small, relayed)
  {
    var budget := BudgetFor(art, c).value;
    var name := if budget.profile == "" then PROFILE_NAME else budget.profile;
    var profile := FindProfile(art.profiles.value, name).value;
    AirtimeMonotone(profile, small + Overhead(relayed), large + Overhead(relayed));
  }

  /** Any smaller positive payload passes the gate too. */
  lemma SmallerPayloadPasses(art: Artifacts, nodes: Nodes, req: Request, small: int)
    requires OutboundGate(art, nodes, req) && 0 < small <= req.body.bytes
    ensures OutboundGate(art, nodes, req.(body := BodySize(small, req.body.refused)))
  {
    var less := req.(body := BodySize(small, req.body.refused));
    var info := DecidingNode(nodes, req);
    assert DecidingNode(nodes, less) == info && PolicyStart(art, nodes, less) == PolicyStart(art, nodes, req);
    if req.toNode && PolicyClass(req.delivery.routeClass).Some? && IsLoRa(BearerLabel(info.lease)) {
      BudgetMonotone(art, req.delivery.routeClass, small, req.body.bytes, IsRelay(BearerLabel(info.lease)));
    }
  }

  // ---------------------------------------------------------------------------------------------
  // When the size of a body is not limited at all

  /** Some body of at least this length passes the size side of the gate. */
  ghost predicate LongBodyFits(art: Artifacts, planned: RouteClass, c: Class, relayed: bool, length: nat)
  {
    exists bytes :: length <= bytes && SizeFits(art, planned, c, bytes, relayed)
  }

  ghost predicate SizesUnbounded(art: Artifacts, planned: RouteClass, c: Class, relayed: bool)
  {
    forall length :: LongBodyFits(art, planned, c, relayed, length)
  }

  /** The airtime of a class can be computed for every body length. */
  predicate AirtimeComputable(art: Artifacts, c: RouteClass)
  {
    var budget := BudgetFor(art, c);
    && budget.Some? && art.profiles.Some?
    && var found := FindProfile(art.profiles.value, BudgetProfile(budget.value));
       found.Some? && found.value.bandwidthKHz > 0 && 6 <= found.value.spreadingFactor <= 12
  }

  lemma BudgetNeedsComputableAirtime(art: Artifacts, c: RouteClass, bytes: int, relayed: bool)
    requires 0 <= bytes
    ensures EstimatedAirtime(art, c, bytes, relayed).Some? <==> AirtimeComputable(art, c)
  {
  }

  lemma TooLongForLimit(profile: Profile, total: int, limit: int)
    requires AirtimeMS(profile, total).Ok? && profile.bandwidthKHz * limit < total
    ensures limit < AirtimeMS(profile, total).value
  {
    var ms := AirtimeMS(profile, total).value;
    AirtimeUnbounded(profile, total);
    if ms <= limit {
      ProductMonotone(ms, limit, profile.bandwidthKHz);
      assert false;
    }
  }

  /** Under an airtime limit some body length, and every larger one, is too much. */
  lemma AirtimeLimitIsReached(art: Artifacts, c: RouteClass, relayed: bool) returns (n: nat)
    requires AirtimeComputable(art, c) && BudgetFor(art, c).value.maxAirtimeMs > 0
    ensures forall bytes :: n <= bytes ==> !WithinBudget(art, c, bytes, relayed)
  {
    var budget := BudgetFor(art, c).value;
    var profile := FindProfile(art.profiles.value, BudgetProfile(budget)).value;
    n := Max(profile.bandwidthKHz * budget.maxAirtimeMs + 1, 0);
    forall bytes | n <= bytes ensures !WithinBudget(art, c, bytes, relayed) {
      TooLongForLimit(profile, bytes + Overhead(relayed), budget.maxAirtimeMs);
    }
  }

  /** Nothing bounds the length of a body: no cap of the fixed profile, because that profile is
      missing, no policy cap, and an airtime that can be computed but has no limit. */
  predicate NoSizeLimit(art: Artifacts, planned: RouteClass, c: Class, relayed: bool)
  {
    && BodyCap(art, relayed).None?
    && (PolicyOf(art, c.name).Some? ==> PolicyOf(art, c.name).value.maxLoRaBodyBytes.None?)
    && AirtimeComputable(art, planned) && BudgetFor(art, planned).value.maxAirtimeMs <= 0
  }

  /** Where there is a limit, from some length on nothing fits. */
  lemma SizeLimitIsReached(art: Artifacts, planned: RouteClass, c: Class, relayed: bool) returns (n: nat)
    requires !NoSizeLimit(art, planned, c, relayed)
    ensures !LongBodyFits(art, planned, c, relayed, n)
  {
    var cap, policy := BodyCap(art, relayed), PolicyOf(art, c.name);
    n := 0;
    if cap.Some? {
      n := Max(cap.value + 1, 0);
    } else if policy.Some? && policy.value.maxLoRaBodyBytes.Some? {
      n := Max(policy.value.maxLoRaBodyBytes.value + 1, 0);
    } else if AirtimeComputable(art, planned) {
      n := AirtimeLimitIsReached(art, planned, relayed);
    } else {
      forall bytes | 0 <= bytes ensures !WithinBudget(art, planned, bytes, relayed) {
        BudgetNeedsComputableAirtime(art, planned, bytes, relayed);
      }
    }
  }

  /** Body lengths are unbounded exactly when no limit is in force. */
  lemma SizesUnboundedIff(art: Artifacts, planned: RouteClass, c: Class, relayed: bool)
    ensures SizesUnbounded(art, planned, c, relayed) <==> NoSizeLimit(art, planned, c, relayed)
  {
    if NoSizeLimit(art, planned, c, relayed) {
      forall length: nat ensures LongBodyFits(art, planned, c, relayed, length) {
        BudgetNeedsComputableAirtime(art, planned, length, relayed);
        assert SizeFits(art, planned, c, length, relayed);
      }
    } else {
      var n := SizeLimitIsReached(art, planned, c, relayed);
    }
  }

  /** A node with a direct LoRa lease, and a summary of the given length for it. */
  function DirectNode(): Nodes { Nodes(map[], map["n" := Lease(Some(1), NoRole, LoraDirect, NoBearer)]) }

  function SummaryRequest(bytes: nat): Request
  {
    Request(true, "n", Delivery(SparseSummary, None, None, None), None, BodySize(bytes, false),
            Compact(false, None), "", "", None)
  }

  /** A profile file without the fixed profile, and a budget for another profile without airtime limit. */
  function ProfileMissing(): Artifacts
  {
    Artifacts(map[], Some([Profile("other", 125, 9, 48)]), Some(Budget("other", 0)), map[], {})
  }

  lemma OnlyTheOtherProfile()
    ensures FindProfile(ProfileMissing().profiles.value, PROFILE_NAME) == None
    ensures FindProfile(ProfileMissing().profiles.value, "other") == Some(Profile("other", 125, 9, 48))
  {
    var profiles := ProfileMissing().profiles.value;
    assert profiles[1..] == [];
    assert "other"[0] != PROFILE_NAME[0];
    assert FindProfile([], PROFILE_NAME) == None;
  }

  lemma OversizedBodyFits(bytes: nat)
    ensures SizeFits(ProfileMissing(), SparseSummary, PolicyClass(SparseSummary).value, bytes, false)
  {
    OnlyTheOtherProfile();
    assert "other" != "";
    assert WithinBudget(ProfileMissing(), SparseSummary, bytes, false);
  }

  lemma DirectBearerIsPermitted()
    ensures BearerPermitted(ProfileMissing(), PolicyClass(SparseSummary).value, LoraDirect, false)
  {
    var allowed := AllowedList(ProfileMissing(), PolicyClass(SparseSummary).value);
    assert allowed[0] == LoraDirect && AllowedBy(LoraDirect, allowed[0], false);
  }

  lemma OversizedBodyPasses(bytes: nat, plan: RoutePlan)
    requires 0 < bytes && plan.routeClass == SparseSummary && plan.intent.hopLimit.None? && !plan.intent.allowRelay
    ensures var info, c := Lookup(DirectNode(), "n"), PolicyClass(SparseSummary).value;
            Gate(ProfileMissing(), SummaryRequest(bytes), plan, info, c)
  {
    OversizedBodyFits(bytes);
    DirectBearerIsPermitted();
    assert "n" != "";
    assert Lookup(DirectNode(), "n") == NodeInfo("n", None, Some(Lease(Some(1), NoRole, LoraDirect, NoBearer)));
  }

  /** With such artifacts a summary of any length, octets no LoRa packet can hold, is planned as ready. */
  lemma OversizedBodyIsPlanned(bytes: nat)
    requires 0 < bytes
    ensures ValidNodes(DirectNode()) && OutboundGate(ProfileMissing(), DirectNode(), SummaryRequest(bytes))
  {
    OversizedBodyPasses(bytes, PolicyStart(ProfileMissing(), DirectNode(), SummaryRequest(bytes)));
  }

  /** On the Wi-Fi mesh a used-up hop limit stops the route exactly when relaying is allowed. */
  lemma MeshHopsCheckedIffRelayAllowed(intent: Intent, hops: int)
    requires intent.hopLimit.Some? && 0 < intent.hopLimit.value <= hops
    ensures HopsAllow(intent, WifiMesh, hops) <==> !intent.allowRelay
  {
  }

  /** A mesh router, and a message for it that has made all its hops. */
  function MeshNode(): Nodes { Nodes(map[], map["n" := Lease(Some(1), MeshRouter, WifiMesh, NoBearer)]) }

  function MeshRequest(limit: int, hops: int, relay: bool): Request
  {
    Request(true, "n", Delivery(WifiMeshBackbone, Some(relay), None, Some(limit)), Some(hops), BodySize(1, false),
            Compact(false, None), "", "", None)
  }

  const NO_ARTIFACTS := Artifacts(map[], None, None, map[], {})

  /** Without any policy file, such a message is planned as ready exactly if it may not be relayed. */
  lemma ExhaustedMeshRequestIsPlannedIff(limit: int, hops: int, relay: bool)
    requires 0 < limit <= hops
    ensures OutboundGate(NO_ARTIFACTS, MeshNode(), MeshRequest(limit, hops, relay)) <==> !relay
  {
    var art, nodes, req := NO_ARTIFACTS, MeshNode(), MeshRequest(limit, hops, relay);
    assert "n" != "";
    var info, c := Lookup(nodes, "n"), PolicyClass(WifiMeshBackbone).value;
    assert info == NodeInfo("n", None, Some(Lease(Some(1), MeshRouter, WifiMesh, NoBearer)));
    assert RequiredRoles(art, c.name)[0] == MeshRouter;
    assert AllowedList(art, c)[0] == WifiMesh && AllowedBy(WifiMesh, AllowedList(art, c)[0], relay);
    MeshHopsCheckedIffRelayAllowed(IntentOf(art, req.delivery), hops);
  }
}
