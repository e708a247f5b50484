/**
 The authorization evaluator of security-kernel/src/lib.rs: ordered gates over licence, module, scope
 and authority, against a policy stated without order.
 */
module Authorization {
  import opened Text
  import opened Strings

  datatype LicenseMode = Community | Commercial | Enterprise | PrivateContract

  datatype DistributionMode = SaaS | SaaSOrgPrivate | SingleOrgCommercial | PrivateDeployment

  datatype Actor = Actor(actorId: Uuid, actorType: string, authorityTier: string, isPlatformAdmin: bool)

  datatype Resource = Resource(
    moduleKey: string, resourceType: string, action: string, scopeLevel: string,
    organizationId: Option<Uuid>, requiredAuthorityTier: string, requiredLicenseMode: string)

  datatype Request = Request(
    actor: Actor, organizationId: Option<Uuid>, distributionMode: DistributionMode,
    licenseMode: LicenseMode, enabledModules: seq<string>, enabledFeatures: seq<string>,
    resource: Resource)

  /** The reason texts: "allowed", "license_denied", "module_disabled", and so on. */
  datatype Reason =
    | Allowed | LicenseDenied | ModuleDisabled | PlatformAdminRequired | TenantMismatch
    | UnsupportedScope | AuthorityDenied

  datatype DecisionType = Allow | DenyType

  datatype Decision = Decision(allowed: bool, reason: Reason, decisionType: DecisionType)

  function AuthorityWeight(tier: string): int {
    match tier
    case "executor" => 1
    case "reviewer" => 2
    case "organization_admin" => 3
    case "organization_creator" => 4
    case _ => 0
  }

  function LicenseWeight(mode: LicenseMode): int {
    match mode
    case Community => 1
    case Commercial => 2
    case Enterprise => 3
    case PrivateContract => 4
  }

  function RequiredLicenseWeight(mode: string): int {
    match mode
    case "" => 1
    case "community" => 1
    case "commercial" => 2
    case "enterprise" => 3
    case "private_contract" => 4
    case _ => 5
  }

  predicate LicenseAllows(actual: LicenseMode, required: string) {
    LicenseWeight(actual) >= RequiredLicenseWeight(required)
  }

  predicate AuthorityAllows(actual: string, required: string, platformAdmin: bool) {
    platformAdmin
    || (AuthorityWeight(actual) >= AuthorityWeight(required) && AuthorityWeight(required) > 0)
  }

  function Deny(reason: Reason): Decision {
    Decision(false, reason, DenyType)
  }

  function EvaluateAuthorization(r: Request): Decision {
    var moduleKey := Trim(r.resource.moduleKey, RustWhitespace);
    var scope := r.resource.scopeLevel;
    if !LicenseAllows(r.licenseMode, r.resource.requiredLicenseMode) then Deny(LicenseDenied)
    else if moduleKey != "" && moduleKey != "general" && moduleKey !in r.enabledModules then
      Deny(ModuleDisabled)
    else if scope == "saas_global" && !r.actor.isPlatformAdmin then Deny(PlatformAdminRequired)
    else if scope == "organization" && r.resource.organizationId.Some?
            && r.organizationId != r.resource.organizationId && !r.actor.isPlatformAdmin then
      Deny(TenantMismatch)
    else if scope != "organization" && scope != "deployment" && scope != "" then
      Deny(UnsupportedScope)
    else if !AuthorityAllows(r.actor.authorityTier, r.resource.requiredAuthorityTier, r.actor.isPlatformAdmin) then
      Deny(AuthorityDenied)
    else Decision(true, Allowed, Allow)
  }

  // The policy

  datatype Gate = LicenseGate | ModuleGate | ScopeGate | AuthorityGate

  const GATES: seq<Gate> := [LicenseGate, ModuleGate, ScopeGate, AuthorityGate]

  /** Whether a request meets one requirement, whatever becomes of the others. */
  predicate Passes(g: Gate, r: Request) {
    match g
    case LicenseGate =>
      match r.resource.requiredLicenseMode {
        case "" => true
        case "community" => true
        case "commercial" => !r.licenseMode.Community?
        case "enterprise" => r.licenseMode.Enterprise? || r.licenseMode.PrivateContract?
        case "private_contract" => r.licenseMode.PrivateContract?
        case _ => false
      }
    case ModuleGate =>
      Trim(r.resource.moduleKey, RustWhitespace) in {"", "general"} + set m | m in r.enabledModules
    case ScopeGate =>
      || r.resource.scopeLevel in {"", "deployment"}
      || (r.resource.scopeLevel == "organization"
          && (r.actor.isPlatformAdmin || r.resource.organizationId in {None, r.organizationId}))
    case AuthorityGate =>
      r.actor.isPlatformAdmin || r.resource.requiredAuthorityTier in TiersUpTo(r.actor.authorityTier)
  }

  /** The tiers an actor's tier covers; an unknown tier covers none. */
  function TiersUpTo(tier: string): set<string> {
    if tier == "executor" then {"executor"}
    else if tier == "reviewer" then {"executor", "reviewer"}
    else if tier == "organization_admin" then {"executor", "reviewer", "organization_admin"}
    else if tier == "organization_creator" then
      {"executor", "reviewer", "organization_admin", "organization_creator"}
    else {}
  }

  /** The reasons a failed gate may give. */
  function Reasons(g: Gate): set<Reason> {
    match g
    case LicenseGate => {LicenseDenied}
    case ModuleGate => {ModuleDisabled}
    case ScopeGate => {PlatformAdminRequired, TenantMismatch, UnsupportedScope}
    case AuthorityGate => {AuthorityDenied}
  }

  lemma AuthorityWeightsAreTiers(actual: string, required: string)
    ensures AuthorityWeight(actual) >= AuthorityWeight(required) && AuthorityWeight(required) > 0
            <==> required in TiersUpTo(actual)
  {
  }

  lemma LicenseWeightsAreGate(r: Request)
    ensures LicenseAllows(r.licenseMode, r.resource.requiredLicenseMode) <==> Passes(LicenseGate, r)
  {
  }

  lemma ModuleTestIsGate(r: Request)
    ensures var moduleKey := Trim(r.resource.moduleKey, RustWhitespace);
            moduleKey != "" && moduleKey != "general" && moduleKey !in r.enabledModules
            <==> !Passes(ModuleGate, r)
  {
  }

  /** The `match` on the scope lets through exactly what the scope gate does. */
  lemma ScopeArmsAreGate(r: Request)
    ensures var scope, admin := r.resource.scopeLevel, r.actor.isPlatformAdmin;
            || (scope == "saas_global" && !admin)
            || (scope == "organization" && r.resource.organizationId.Some?
                && r.organizationId != r.resource.organizationId && !admin)
            || (scope != "organization" && scope != "deployment" && scope != "")
            <==> !Passes(ScopeGate, r)
  {
  }

  /** The reason, in terms of which gates pass. */
  lemma ReasonIsFirstFailure(r: Request)
    ensures var reason := EvaluateAuthorization(r).reason;
            if !Passes(LicenseGate, r) then reason.LicenseDenied?
            else if !Passes(ModuleGate, r) then reason.ModuleDisabled?
            else if !Passes(ScopeGate, r) then
              (if r.resource.scopeLevel == "organization" then reason.TenantMismatch?
               else if r.resource.scopeLevel == "saas_global" && !r.actor.isPlatformAdmin then
                 reason.PlatformAdminRequired?
               else reason.UnsupportedScope?)
            else if !Passes(AuthorityGate, r) then reason.AuthorityDenied?
            else reason.Allowed?
  {
    LicenseWeightsAreGate(r);
    ModuleTestIsGate(r);
    ScopeArmsAreGate(r);
    AuthorityWeightsAreTiers(r.actor.authorityTier, r.resource.requiredAuthorityTier);
  }

  /**
   The module key is what stands between the blanks of the text, and a licensed request is turned away for
   its module exactly when that key is neither empty nor "general" nor among the enabled modules.
   */
  lemma ModuleDisabledIff(r: Request, before: string, key: string, behind: string)
    requires r.resource.moduleKey == before + key + behind
    requires AllBlank(before, RustWhitespace) && AllBlank(behind, RustWhitespace) && Tight(key, RustWhitespace)
    requires Passes(LicenseGate, r)
    ensures EvaluateAuthorization(r).reason.ModuleDisabled? <==>
              key != "" && key != "general" && key !in r.enabledModules
  {
    TrimIs(before, key, behind, RustWhitespace);
    ReasonIsFirstFailure(r);
  }

  /** Every module key can be read like this. */
  lemma ModuleKeyParts(r: Request) returns (before: string, key: string, behind: string)
    ensures r.resource.moduleKey == before + key + behind
    ensures AllBlank(before, RustWhitespace) && AllBlank(behind, RustWhitespace) && Tight(key, RustWhitespace)
  {
    var s := r.resource.moduleKey;
    var i, j := TrimCutsBlanks(s, RustWhitespace);
    before, key, behind := s[..i], s[i..j], s[j..];
    assert s == before + key + behind;
    assert forall k :: 0 <= k < |behind| ==> behind[k] == s[j + k];
  }

  /** Allowed exactly when every gate passes; a denial names the first gate that does not. */
  lemma EvaluatorRefinesPolicy(r: Request)
    ensures var decision := EvaluateAuthorization(r);
            && (decision.allowed <==> forall g :: Passes(g, r))
            && (decision.allowed <==> decision.decisionType.Allow?)
            && (decision.allowed <==> decision.reason.Allowed?)
            && (forall k :: 0 <= k < |GATES| ==>
                  (decision.reason in Reasons(GATES[k]) <==>
                     !Passes(GATES[k], r) && forall j :: 0 <= j < k ==> Passes(GATES[j], r)))
  {
    ReasonIsFirstFailure(r);
    assert GATES[0] == LicenseGate && GATES[1] == ModuleGate && GATES[2] == ScopeGate && GATES[3] == AuthorityGate;
  }

  // Entitlements

  /** `strong` asks for the same thing with at least the entitlements of `weak`. */
  ghost predicate AtLeast(weak: Request, strong: Request) {
    && strong.resource == weak.resource
    && strong.organizationId == weak.organizationId
    && LicenseWeight(weak.licenseMode) <= LicenseWeight(strong.licenseMode)
    && (forall m :: m in weak.enabledModules ==> m in strong.enabledModules)
    && AuthorityWeight(weak.actor.authorityTier) <= AuthorityWeight(strong.actor.authorityTier)
    && (weak.actor.isPlatformAdmin ==> strong.actor.isPlatformAdmin)
  }

  /** The orders behind "at least": licences and tiers as they are named, unknown tiers below all others. */
  lemma WeightsInOrder(tier: string)
    ensures LicenseWeight(Community) < LicenseWeight(Commercial) < LicenseWeight(Enterprise)
            < LicenseWeight(PrivateContract)
    ensures AuthorityWeight("executor") < AuthorityWeight("reviewer") < AuthorityWeight("organization_admin")
            < AuthorityWeight("organization_creator")
    ensures tier !in {"executor", "reviewer", "organization_admin", "organization_creator"} ==>
              AuthorityWeight(tier) < AuthorityWeight("executor")
  {
  }

  /** More entitlements never turn an allowed request into a denied one. */
  lemma EntitlementsMonotone(weak: Request, strong: Request)
    requires AtLeast(weak, strong) && EvaluateAuthorization(weak).allowed
    ensures EvaluateAuthorization(strong).allowed
  {
  }

  /**
   What no entitlement can buy: a request can be made acceptable by raising licence, modules, tier and
   platform admin exactly when its licence text is known and its scope is one of the three supported.
   A platform admin does not help with "saas_global": its only arm is guarded by the absence of the flag.
   */
  lemma CurableIff(r: Request)
    ensures (exists strong :: AtLeast(r, strong) && EvaluateAuthorization(strong).allowed)
            <==> r.resource.requiredLicenseMode in {"", "community", "commercial", "enterprise", "private_contract"}
                 && r.resource.scopeLevel in {"organization", "deployment", ""}
  {
    if RequiredLicenseWeight(r.resource.requiredLicenseMode) <= 4
       && r.resource.scopeLevel in {"organization", "deployment", ""} {
      var moduleKey := Trim(r.resource.moduleKey, RustWhitespace);
      var strong := r.(actor := r.actor.(isPlatformAdmin := true), licenseMode := PrivateContract,
                       enabledModules := r.enabledModules + [moduleKey]);
      assert moduleKey in strong.enabledModules;
      assert AtLeast(r, strong) && EvaluateAuthorization(strong).allowed;
    }
  }
}
