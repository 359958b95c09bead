/**
 The route classes as a rule book: for each class, what the lease, the policy file, the profile file and the
 radio budget must say for an envelope to be sendable, written down without the planner's own functions and
 proved to be exactly the planner's gate.
 */
module RouteRules {
  import opened Wrappers
  import opened Airtime
  import opened RoutePlanner

  // ---------------------------------------------------------------------------------------------
  // Bearers and roles

  predicate Radio(b: Bearer)
  {
    match b
    case Lora | LoraDirect | LoraRelay | LoraMesh | LoraOther(_) => true
    case _ => false
  }

  function Family(b: Bearer): Bearer
  {
    match b
    case Lora | LoraDirect | LoraRelay | LoraMesh => Lora
    case Wifi | WifiIp | WifiMesh | WifiLr => Wifi
    case _ => b
  }

  /** The bearer a lease gives: its primary one, the family names standing for direct radio and for IP. */
  function Given(lease: Lease): Bearer
  {
    match lease.primary
    case Lora => LoraDirect
    case Wifi => WifiIp
    case own => own
  }

  /** Without a list of its own in the policy, a class may use these. */
  predicate ClassCarries(c: RouteClass, b: Bearer)
  {
    match c
    case LocalControl => b == Wifi || b == WifiIp || b == UsbCdc
    case BulkWifiOnly => b == Wifi || b == WifiIp || b == WifiMesh
    case CriticalAlert | SparseSummary | SleepyHeartbeat | NormalState => b == Wifi || b == WifiIp || b == LoraDirect
    case RedundantCritical => b == Wifi || b == WifiIp || b == WifiMesh || b == LoraDirect || b == LoraRelay
    case LoraRelay1 => b == LoraRelay
    case WifiMeshBackbone => b == WifiMesh
    case ControlEvent => b == Wifi || b == WifiIp
    case _ => false
  }

  predicate ListsLora(list: seq<Bearer>) { exists x :: x in list && Family(x) == Lora }

  predicate ListsRadio(list: seq<Bearer>) { exists x :: x in list && Radio(x) }

  /** A listed bearer allows itself; any listed LoRa bearer allows the relaying ones if relaying is allowed. */
  predicate ListRule(list: seq<Bearer>, b: Bearer, allowRelay: bool)
  {
    b in list || (allowRelay && (b == LoraRelay || b == LoraMesh) && ListsLora(list))
  }

  predicate ClassRule(c: RouteClass, b: Bearer, allowRelay: bool)
  {
    || ClassCarries(c, b)
    || (&& allowRelay && (b == LoraRelay || b == LoraMesh)
        && (ClassCarries(c, LoraDirect) || ClassCarries(c, LoraRelay)))
  }

  predicate AllowedRule(art: Artifacts, c: RouteClass, b: Bearer, allowRelay: bool)
  {
    if c in art.policies && art.policies[c].allowedBearers != []
    then ListRule(art.policies[c].allowedBearers, b, allowRelay) else ClassRule(c, b, allowRelay)
  }

  /** Forbidding a family forbids all its bearers. */
  predicate ForbiddenRule(list: seq<Bearer>, b: Bearer)
  {
    b in list || (Lora in list && Radio(b)) || (Wifi in list && Family(b) == Wifi)
  }

  predicate BearerRule(art: Artifacts, c: RouteClass, b: Bearer, allowRelay: bool)
  {
    && AllowedRule(art, c, b, allowRelay)
    && (c in art.policies ==> !ForbiddenRule(art.policies[c].forbiddenBearers, b))
  }

  predicate RoleRule(art: Artifacts, c: RouteClass, role: Role)
  {
    if c in art.policies && art.policies[c].requiresTargetRole != [] then role in art.policies[c].requiresTargetRole
    else
      match c
      case SleepyHeartbeat => role == SleepyLeaf
      case LoraRelay1 => role == LoraRelayRole
      case WifiMeshBackbone => role == MeshRouter || role == MeshRoot || role == DualBearerBridge
      case _ => true
  }

  /** Relays need permission and hops left; the Wi-Fi mesh needs a limit above zero, and hops left only if relaying
      is allowed. */
  predicate HopRule(intent: Intent, b: Bearer, hops: int)
  {
    match b
    case LoraRelay | LoraMesh =>
      intent.allowRelay && (intent.hopLimit.Some? ==> intent.hopLimit.value != 0 && hops < intent.hopLimit.value)
    case WifiMesh =>
      intent.hopLimit.Some? ==>
        intent.hopLimit.value != 0 && (!intent.allowRelay || hops < intent.hopLimit.value)
    case _ => true
  }

  lemma HopRuleIsGate(intent: Intent, b: Bearer, hops: int)
    ensures HopRule(intent, b, hops) <==> HopsAllow(intent, b, hops)
  {
  }

  lemma RoleRuleIsGate(art: Artifacts, c: RouteClass, info: NodeInfo)
    requires PolicyClass(c).Some? && info.lease.Some?
    ensures RoleRule(art, c, info.lease.value.role) <==> RoleAllowed(art, c, info)
  {
  }

  lemma Listed(list: seq<Bearer>, b: Bearer, allowRelay: bool)
    ensures SomeAllows(list, b, allowRelay) <==> ListRule(list, b, allowRelay)
  {
    if b in list {
      var i :| 0 <= i < |list| && list[i] == b;
      assert AllowedBy(b, list[i], allowRelay);
    }
    if x :| x in list && Family(x) == Lora {
      var i :| 0 <= i < |list| && list[i] == x;
      assert allowRelay && (b == LoraRelay || b == LoraMesh) ==> AllowedBy(b, list[i], allowRelay);
    }
    if i :| 0 <= i < |list| && AllowedBy(b, list[i], allowRelay) {
      assert list[i] in list;
    }
  }

  lemma Forbidden(list: seq<Bearer>, b: Bearer)
    ensures SomeForbids(list, b) <==> ForbiddenRule(list, b)
  {
    if x :| x in list && (x == b || (x == Lora && Radio(b)) || (x == Wifi && Family(b) == Wifi)) {
      var i :| 0 <= i < |list| && list[i] == x;
      assert ForbiddenBy(b, list[i]);
    }
    if i :| 0 <= i < |list| && ForbiddenBy(b, list[i]) {
      assert list[i] in list;
    }
  }

  lemma ClassList(c: RouteClass, b: Bearer)
    requires PolicyClass(c).Some?
    ensures b in PolicyClass(c).value.defaultBearers <==> ClassCarries(c, b)
  {
  }

  lemma ClassListsLora(c: RouteClass)
    requires PolicyClass(c).Some?
    ensures ListsLora(PolicyClass(c).value.defaultBearers) <==>
              ClassCarries(c, LoraDirect) || ClassCarries(c, LoraRelay)
  {
    ClassList(c, LoraDirect);
    ClassList(c, LoraRelay);
    if x :| x in PolicyClass(c).value.defaultBearers && Family(x) == Lora {
      ClassList(c, x);
    }
  }

  lemma ClassListAllows(c: RouteClass, b: Bearer, allowRelay: bool)
    requires PolicyClass(c).Some?
    ensures SomeAllows(PolicyClass(c).value.defaultBearers, b, allowRelay) <==> ClassRule(c, b, allowRelay)
  {
    Listed(PolicyClass(c).value.defaultBearers, b, allowRelay);
    ClassList(c, b);
    ClassListsLora(c);
  }

  lemma OwnListRule(art: Artifacts, k: Class, b: Bearer, allowRelay: bool)
    requires k.name != NoClass && k.name in art.policies && art.policies[k.name].allowedBearers != []
    ensures SomeAllows(AllowedList(art, k), b, allowRelay) <==>
              ListRule(art.policies[k.name].allowedBearers, b, allowRelay)
  {
    Listed(art.policies[k.name].allowedBearers, b, allowRelay);
  }

  lemma AllowedRuleIsGate(art: Artifacts, k: Class, b: Bearer, allowRelay: bool)
    requires k.name != NoClass && (SomeAllows(k.defaultBearers, b, allowRelay) <==> ClassRule(k.name, b, allowRelay))
    ensures AllowedRule(art, k.name, b, allowRelay) <==> SomeAllows(AllowedList(art, k), b, allowRelay)
  {
    if k.name in art.policies && art.policies[k.name].allowedBearers != [] {
      OwnListRule(art, k, b, allowRelay);
    } else {
      assert AllowedList(art, k) == k.defaultBearers;
    }
  }

  lemma BearerRuleIsGate(art: Artifacts, k: Class, b: Bearer, allowRelay: bool)
    requires k.name != NoClass && (SomeAllows(k.defaultBearers, b, allowRelay) <==> ClassRule(k.name, b, allowRelay))
    ensures BearerRule(art, k.name, b, allowRelay) <==> BearerPermitted(art, k, b, allowRelay)
  {
    AllowedRuleIsGate(art, k, b, allowRelay);
    if k.name in art.policies {
      Forbidden(art.policies[k.name].forbiddenBearers, b);
    }
  }

  // ---------------------------------------------------------------------------------------------
  // Radio

  /** The airtime of the class's budget profile, the class's own entries before the defaults, is known and within
      the limit, if there is one. */
  predicate BudgetRule(art: Artifacts, c: RouteClass, total: int)
  {
    && art.budgetDefaults.Some? && art.profiles.Some?
    && var own := c in art.budgets;
       var base := art.budgetDefaults.value;
       var named := if own && art.budgets[c].profile != "" then art.budgets[c].profile else base.profile;
       var limit := if own && art.budgets[c].maxAirtimeMs > 0 then art.budgets[c].maxAirtimeMs else base.maxAirtimeMs;
       var found := FindProfile(art.profiles.value, if named == "" then "JP125_LONG_SF10" else named);
       && found.Some? && AirtimeMS(found.value, total).Ok?
       && (limit > 0 ==> AirtimeMS(found.value, total).value <= limit)
  }

  lemma BudgetRuleIsGate(art: Artifacts, c: RouteClass, bytes: int, relayed: bool)
    ensures BudgetRule(art, c, bytes + if relayed then 18 else 14) <==> WithinBudget(art, c, bytes, relayed)
  {
  }

  /** Within the fixed profile's packet, if that profile is there, the policy's cap and the budget; the overhead is 14
      octets, or 18 when relayed. */
  predicate SizeRule(art: Artifacts, c: RouteClass, bytes: int, relayed: bool)
  {
    var total := bytes + if relayed then 18 else 14;
    && (art.profiles.Some? && FindProfile(art.profiles.value, "JP125_LONG_SF10").Some? ==>
          total <= FindProfile(art.profiles.value, "JP125_LONG_SF10").value.totalPayloadCap)
    && (c in art.policies && art.policies[c].maxLoRaBodyBytes.Some? ==>
          bytes <= art.policies[c].maxLoRaBodyBytes.value)
    && BudgetRule(art, c, total)
  }

  predicate LoRaAllowed(art: Artifacts, c: RouteClass)
  {
    if c in art.policies then ListsRadio(art.policies[c].allowedBearers)
    else c != LocalControl && c != BulkWifiOnly && c != WifiMeshBackbone && c != ControlEvent
  }

  /** A LoRa route needs a class that allows LoRa, and a body that is there, accepted, and short enough. */
  predicate RadioRule(art: Artifacts, req: Request, c: RouteClass, relayed: bool)
  {
    && LoRaAllowed(art, c) && !req.body.refused && 0 < req.body.bytes
    && SizeRule(art, c, req.body.bytes, relayed)
  }

  lemma SizeRuleIsGate(art: Artifacts, c: RouteClass, bytes: int, relayed: bool)
    requires PolicyClass(c).Some?
    ensures SizeRule(art, c, bytes, relayed) <==> SizeFits(art, c, PolicyClass(c).value, bytes, relayed)
  {
    BudgetRuleIsGate(art, c, bytes, relayed);
  }

  lemma Representable(art: Artifacts, c: RouteClass)
    requires PolicyClass(c).Some?
    ensures LoRaRepresentable(art, PolicyClass(c).value) <==> LoRaAllowed(art, c)
  {
    if c in art.policies {
      var list := art.policies[c].allowedBearers;
      if x :| x in list && Radio(x) {
        var i :| 0 <= i < |list| && list[i] == x;
        assert IsLoRa(list[i]);
      }
      if i :| 0 <= i < |list| && IsLoRa(list[i]) {
        assert list[i] in list && Radio(list[i]);
      }
    }
  }

  lemma RadioRuleIsGate(art: Artifacts, req: Request, c: RouteClass, plan: RoutePlan, info: NodeInfo, relayed: bool)
    requires PolicyClass(c).Some? && plan.routeClass == c
    ensures LoRaFits(art, req, plan, info, PolicyClass(c).value, relayed) <==>
              RadioRule(art, req, c, relayed) && (relayed ==> RelayIdsKnown(plan.ids, info, req.finalTargetShortId))
  {
    Representable(art, c);
    SizeRuleIsGate(art, c, req.body.bytes, relayed);
  }

  // ---------------------------------------------------------------------------------------------
  // Nodes

  /** A lease that contradicts the manifest of its node stops every route. */
  predicate ConsistentNode(art: Artifacts, nodes: Nodes, node: string)
  {
    node != "" && node in nodes.leases && node in nodes.manifests ==>
      var lease, m := nodes.leases[node], nodes.manifests[node];
      && (lease.shortId.Some? ==> 1 <= lease.shortId.value <= 65535)
      && (m.roles == [] || lease.role in m.roles)
      && (lease.primary == NoBearer || Family(lease.primary) in m.bearers)
      && (lease.fallback == NoBearer || Family(lease.fallback) in m.bearers)
      && (m.sleepyPower ==> lease.role !in art.alwaysOnRoles)
  }

  lemma ConsistentNodeIsGate(art: Artifacts, nodes: Nodes, node: string)
    ensures ConsistentNode(art, nodes, node) <==> NodeConsistent(art, Lookup(nodes, node))
  {
    if node in nodes.leases {
      SameFamily(nodes.leases[node].primary);
      SameFamily(nodes.leases[node].fallback);
    }
  }

  lemma SameFamily(b: Bearer)
    ensures b != NoBearer ==> ManifestName(b) == Family(b)
  {
  }

  /** The node whose lease decides: the target, or the relay named for a one-hop LoRa relay. */
  function Deciding(req: Request): string
  {
    if req.delivery.routeClass == LoraRelay1 && req.relayId != "" then req.relayId else req.target
  }

  /** A relay route knows the short ids of its next hop, from the deciding lease, and of its final target: from the
      target's lease when another node relays, and otherwise from the payload. */
  predicate RelayRule(nodes: Nodes, req: Request)
    requires Deciding(req) in nodes.leases
  {
    var behind := Deciding(req) != req.target && req.target != "" && req.target in nodes.leases;
    && nodes.leases[Deciding(req)].shortId.Some?
    && ((behind && nodes.leases[req.target].shortId.Some?)
        || (req.finalTargetShortId.Some? && 1 <= req.finalTargetShortId.value <= 65535))
  }

  // ---------------------------------------------------------------------------------------------
  // The rule book

  predicate PolicyRule(art: Artifacts, nodes: Nodes, req: Request, intent: Intent)
  {
    var c, node := req.delivery.routeClass, Deciding(req);
    && ConsistentNode(art, nodes, req.target) && ConsistentNode(art, nodes, node)
    && node != "" && node in nodes.leases
    && var lease, b := nodes.leases[node], Given(nodes.leases[node]);
       var relayed := b == LoraRelay || b == LoraMesh;
       && b != NoBearer && b != Unplanned
       && RoleRule(art, c, lease.role) && BearerRule(art, c, b, intent.allowRelay)
       && HopRule(intent, b, if req.hopCount.Some? then req.hopCount.value else 0)
       && (Radio(b) ==> RadioRule(art, req, c, relayed)) && (relayed ==> RelayRule(nodes, req))
  }

  lemma RelayRuleIsGate(nodes: Nodes, req: Request)
    requires Deciding(req) != "" && Deciding(req) in nodes.leases
    ensures RelayRule(nodes, req) <==>
              RelayIdsKnown(InitialIds(nodes, req), DecidingNode(nodes, req), req.finalTargetShortId)
  {
  }

  lemma PolicyRuleIsGate(art: Artifacts, nodes: Nodes, req: Request)
    requires req.toNode && PolicyClass(req.delivery.routeClass).Some?
    ensures PolicyRule(art, nodes, req, IntentOf(art, req.delivery)) <==> OutboundGate(art, nodes, req)
  {
    var c, node, info := req.delivery.routeClass, Deciding(req), DecidingNode(nodes, req);
    var plan := PolicyStart(art, nodes, req);
    ConsistentNodeIsGate(art, nodes, req.target);
    ConsistentNodeIsGate(art, nodes, node);
    assert info == Lookup(nodes, node);
    if node != "" && node in nodes.leases {
      var b := Given(nodes.leases[node]);
      assert BearerLabel(info.lease) == if b == NoBearer then Unplanned else b;
      RoleRuleIsGate(art, c, info);
      ClassListAllows(c, b, plan.intent.allowRelay);
      BearerRuleIsGate(art, PolicyClass(c).value, b, plan.intent.allowRelay);
      HopRuleIsGate(plan.intent, b, Hops(req));
      RadioRuleIsGate(art, req, c, plan, info, b == LoraRelay || b == LoraMesh);
      RelayRuleIsGate(nodes, req);
    }
  }

  /** The other classes: a sleepy leaf is commanded over direct LoRa, maintained over its maintenance bearer, and an
      envelope without class goes anywhere but over LoRa. */
  predicate OtherRule(art: Artifacts, nodes: Nodes, req: Request)
  {
    var known := req.target != "" && req.target in nodes.leases;
    var described := req.target != "" && req.target in nodes.manifests;
    && ConsistentNode(art, nodes, req.target) && known
    && var lease := nodes.leases[req.target];
       match req.delivery.routeClass
       case NoClass => lease.primary != NoBearer && lease.primary != Unplanned && !Radio(lease.primary)
       case MaintenanceSync =>
         lease.role == SleepyLeaf && (described ==> BleMaintenance in nodes.manifests[req.target].bearers)
       case SleepyTinyControl =>
         && lease.role == SleepyLeaf && (lease.primary == Lora || lease.primary == LoraDirect)
         && (described ==> Lora in nodes.manifests[req.target].bearers)
         && lease.shortId.Some? && 1 <= lease.shortId.value <= 65535
         && req.compact.representable && req.compact.token.Some? && 1 <= req.compact.token.value <= 65535
         && art.profiles.Some? && FindProfile(art.profiles.value, "JP125_LONG_SF10").Some?
         && 13 <= FindProfile(art.profiles.value, "JP125_LONG_SF10").value.totalPayloadCap
         && BudgetRule(art, SleepyTinyControl, 27)
       case _ => false
  }

  lemma OtherRuleIsGate(art: Artifacts, nodes: Nodes, req: Request)
    requires req.toNode && PolicyClass(req.delivery.routeClass).None?
    ensures OtherRule(art, nodes, req) <==> OutboundGate(art, nodes, req)
  {
    ConsistentNodeIsGate(art, nodes, req.target);
    BudgetRuleIsGate(art, SleepyTinyControl, 13, false);
  }

  /** The planner lets an envelope through exactly by the book: always if it is not for a node, and otherwise by the
      rule of its class and the intent that delivery, policy and class make up. */
  lemma GateIsRuleBook(art: Artifacts, nodes: Nodes, req: Request, intent: Intent)
    requires ExpectedIntent(art, req, intent)
    ensures OutboundGate(art, nodes, req) <==>
              || !req.toNode
              || (if PolicyClass(req.delivery.routeClass).Some? then PolicyRule(art, nodes, req, intent)
                  else OtherRule(art, nodes, req))
  {
    if req.toNode {
      if PolicyClass(req.delivery.routeClass).Some? {
        assert intent == IntentOf(art, req.delivery);
        PolicyRuleIsGate(art, nodes, req);
      } else {
        OtherRuleIsGate(art, nodes, req);
      }
    }
  }

  /** A ready relay plan names its hops: the deciding node next, and as final target the envelope's own one when
      another node relays, otherwise the one of the payload. */
  lemma RelayPlanNamesItsHops(art: Artifacts, nodes: Nodes, req: Request, plan: RoutePlan)
    requires PlannedFrom(art, nodes, req, plan) && req.toNode && PolicyClass(plan.routeClass).Some?
    requires plan.bearer == LoraRelay || plan.bearer == LoraMesh
    ensures var behind := Deciding(req) != req.target;
            && Deciding(req) in nodes.leases
            && plan.ids.nextHop == Deciding(req) && plan.ids.nextHopShort == nodes.leases[Deciding(req)].shortId
            && plan.ids.finalTarget == (if behind && req.target != "" then req.target else req.finalTargetId)
            && plan.ids.finalTargetShort ==
                 if behind && req.target != "" && req.target in nodes.leases && nodes.leases[req.target].shortId.Some?
                 then nodes.leases[req.target].shortId else req.finalTargetShortId
  {
  }
}
