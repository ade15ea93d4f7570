/** The value records of an Enterprise CA object and their default values:
    `EnterpriseCAProperties`, `CARegistryData` and its four parts. */
module CaRecords {
  import opened Common

  /** `Member`: a reference to another directory object. */
  datatype Member = Member(objectIdentifier: string, objectType: string)

  /** `AceTemplate`: one access-control edge produced by the descriptor
      decoders. The model carries these values through without looking
      inside them. */
  datatype AceTemplate = AceTemplate(principalSid: string, principalType: string, rightName: string, isInherited: bool)

  /** `EnterpriseCAProperties`. */
  datatype Properties = Properties(
    domain: string,
    name: string,
    distinguishedname: string,
    domainsid: string,
    isaclprotected: bool,
    description: Option<string>,
    whencreated: int,
    flags: string,
    caname: string,
    dnshostname: string,
    certthumbprint: string,
    certname: string,
    certchain: seq<string>,
    hasbasicconstraints: bool,
    basicconstraintpathlength: u32,
    unresolvedpublishedtemplates: seq<string>,
    casecuritycollected: bool,
    enrollmentagentrestrictionscollected: bool,
    isuserspecifiessanenabledcollected: bool,
    roleseparationenabledcollected: bool)

  datatype CASecurity = CASecurity(data: seq<AceTemplate>, collected: bool, failureReason: Option<string>)

  datatype EnrollmentAgentRestrictions = EnrollmentAgentRestrictions(restrictions: seq<string>, collected: bool, failureReason: Option<string>)

  datatype IsUserSpecifiesSanEnabled = IsUserSpecifiesSanEnabled(value: bool, collected: bool, failureReason: Option<string>)

  datatype RoleSeparationEnabled = RoleSeparationEnabled(value: bool, collected: bool, failureReason: Option<string>)

  datatype CARegistryData = CARegistryData(
    caSecurity: CASecurity,
    enrollmentAgentRestrictions: EnrollmentAgentRestrictions,
    isUserSpecifiesSanEnabled: IsUserSpecifiesSanEnabled,
    roleSeparationEnabled: RoleSeparationEnabled)

  /** The failure reason recorded when no CA security data was decoded. */
  const CA_SECURITY_FAILURE: string := "Failed to get CASecurity!"

  /** The type given to every enabled certificate template. */
  const CERT_TEMPLATE_TYPE: string := "CertTemplate"

  /** Basic Constraints are present exactly when a positive path length is
      recorded. */
  predicate BasicConstraintsConsistent(p: Properties) {
    p.hasbasicconstraints <==> p.basicconstraintpathlength > 0
  }

  /** `EnterpriseCAProperties::default`: nothing is known yet. The creation
      time is the "unset" value -1, no flag claims anything was collected,
      and no Basic Constraints are recorded. */
  function DefaultProperties(): (p: Properties)
    ensures p.whencreated == -1
    ensures p.description == None
    ensures p.domain == p.name == p.distinguishedname == p.domainsid == p.caname == p.dnshostname == ""
    ensures p.certthumbprint == p.certname == p.flags == "" && p.certchain == []
    ensures !p.hasbasicconstraints && p.basicconstraintpathlength == 0 && BasicConstraintsConsistent(p)
    ensures !p.isaclprotected
    ensures !p.casecuritycollected && !p.enrollmentagentrestrictionscollected
    ensures !p.isuserspecifiessanenabledcollected && !p.roleseparationenabledcollected
    ensures p.unresolvedpublishedtemplates == []
  {
    Properties(
      domain := "",
      name := "",
      distinguishedname := "",
      domainsid := "",
      isaclprotected := false,
      description := None,
      whencreated := -1,
      flags := "",
      caname := "",
      dnshostname := "",
      certthumbprint := "",
      certname := "",
      certchain := [],
      hasbasicconstraints := false,
      basicconstraintpathlength := 0,
      unresolvedpublishedtemplates := [],
      casecuritycollected := false,
      enrollmentagentrestrictionscollected := false,
      isuserspecifiessanenabledcollected := false,
      roleseparationenabledcollected := false)
  }

  /** `CASecurity::default`: no data, yet marked collected and without a
      failure reason. */
  function DefaultCASecurity(): (c: CASecurity)
    ensures c.data == [] && c.collected && c.failureReason == None
  {
    CASecurity([], true, None)
  }

  function DefaultEnrollmentAgentRestrictions(): (e: EnrollmentAgentRestrictions)
    ensures e.restrictions == [] && e.collected && e.failureReason == None
  {
    EnrollmentAgentRestrictions([], true, None)
  }

  function DefaultIsUserSpecifiesSanEnabled(): (v: IsUserSpecifiesSanEnabled)
    ensures !v.value && v.collected && v.failureReason == None
  {
    IsUserSpecifiesSanEnabled(false, true, None)
  }

  function DefaultRoleSeparationEnabled(): (v: RoleSeparationEnabled)
    ensures !v.value && v.collected && v.failureReason == None
  {
    RoleSeparationEnabled(false, true, None)
  }

  /** `CARegistryData::new`: the given CA security with every other part at
      its default. */
  function NewCARegistryData(caSecurity: CASecurity): (r: CARegistryData)
    ensures r.caSecurity == caSecurity
    ensures r.enrollmentAgentRestrictions == DefaultEnrollmentAgentRestrictions()
    ensures r.isUserSpecifiesSanEnabled == DefaultIsUserSpecifiesSanEnabled()
    ensures r.roleSeparationEnabled == DefaultRoleSeparationEnabled()
  {
    CARegistryData(caSecurity, DefaultEnrollmentAgentRestrictions(),
                   DefaultIsUserSpecifiesSanEnabled(), DefaultRoleSeparationEnabled())
  }

  /** The derived `Default` of `CARegistryData`. */
  function DefaultCARegistryData(): (r: CARegistryData)
    ensures r.caSecurity == DefaultCASecurity()
    ensures r.enrollmentAgentRestrictions == DefaultEnrollmentAgentRestrictions()
    ensures r.isUserSpecifiesSanEnabled == DefaultIsUserSpecifiesSanEnabled()
    ensures r.roleSeparationEnabled == DefaultRoleSeparationEnabled()
  {
    NewCARegistryData(DefaultCASecurity())
  }

  /** Wrapping the CA security entries decoded from the descriptor: a
      non-empty list is collected as is, an empty one is "not collected"
      with a failure reason. */
  function WrapCASecurity(data: seq<AceTemplate>): (c: CASecurity)
    ensures c.collected <==> data != []
    ensures c.data == data
    ensures c.collected ==> c.failureReason == None
    ensures !c.collected ==> c.failureReason == Some(CA_SECURITY_FAILURE)
  {
    if data != [] then CASecurity(data, true, None)
    else CASecurity([], false, Some(CA_SECURITY_FAILURE))
  }

  /** The enabled-template list built from the `certificateTemplates` values. */
  function TemplateMembers(names: seq<string>): (ms: seq<Member>)
    ensures |ms| == |names|
    ensures forall i :: 0 <= i < |ms| ==> ms[i].objectIdentifier == names[i] && ms[i].objectType == CERT_TEMPLATE_TYPE
  {
    if names == [] then [] else [Member(names[0], CERT_TEMPLATE_TYPE)] + TemplateMembers(names[1..])
  }

  /** The identifiers of a list of members. */
  function Identifiers(ms: seq<Member>): (ids: seq<string>)
    ensures |ids| == |ms|
    ensures forall i :: 0 <= i < |ms| ==> ids[i] == ms[i].objectIdentifier
  {
    if ms == [] then [] else [ms[0].objectIdentifier] + Identifiers(ms[1..])
  }

  /** The template list names exactly the given templates, in order. */
  lemma {:induction false} TemplateMembersNames(names: seq<string>)
    ensures Identifiers(TemplateMembers(names)) == names
  {
    if names != [] {
      TemplateMembersNames(names[1..]);
    }
  }
}
