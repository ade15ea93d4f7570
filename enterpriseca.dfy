/** The Enterprise CA directory object: its fields, the parser that fills them
    from a directory entry, the hosting-computer heuristic and the setters. */
module EnterpriseCAObject {
  import opened Common
  import opened Rights
  import opened Hosting
  import opened CaRecords
  import opened Certificate
  import opened CaParse
  import opened CaParseProperties

  /** The caller's two lookup tables, updated in place by the parser. */
  class LookupTables {
    var dnSid: map<string, string>
    var sidType: map<string, string>

    constructor(dnSid: map<string, string>, sidType: map<string, string>)
      ensures Model() == Tables(dnSid, sidType)
    {
      this.dnSid := dnSid;
      this.sidType := sidType;
    }

    ghost function Model(): Tables
      reads this
    {
      Tables(dnSid, sidType)
    }

    /** The two inserts at the end of `parse`, skipped for the identifier
        "SID". */
    method Register(dn: string, id: string)
      modifies this
      ensures Model() == CaParse.Register(old(Model()), dn, id)
    {
      if id != SKIPPED_IDENTIFIER {
        dnSid := dnSid[dn := id];
        sidType := sidType[id := OBJECT_KIND];
      }
    }
  }

  class EnterpriseCA {
    var properties: Properties
    var hostingComputer: string
    var caRegistryData: CARegistryData
    var enabledCertTemplates: seq<Member>
    var aces: seq<AceTemplate>
    var objectIdentifier: string
    var isDeleted: bool
    var isAclProtected: bool
    var containedBy: Option<Member>

    ghost function Model(): CaRecord
      reads this
    {
      CaRecord(properties, hostingComputer, caRegistryData, enabledCertTemplates, aces,
               objectIdentifier, isDeleted, isAclProtected, containedBy)
    }

    ghost predicate Valid()
      reads this
    {
      Consistent(Model())
    }

    /** `EnterpriseCA::new`: every field at its default. */
    constructor()
      ensures Model() == DefaultRecord()
      ensures Valid()
    {
      properties := DefaultProperties();
      hostingComputer := "";
      caRegistryData := DefaultCARegistryData();
      enabledCertTemplates := [];
      aces := [];
      objectIdentifier := "";
      isDeleted := false;
      isAclProtected := false;
      containedBy := None;
    }

    /** `EnterpriseCA::parse`: fills the object from one directory entry and
        records it in the caller's lookup tables. */
    method Parse(entry: SearchEntry, domain: string, tables: LookupTables, domainSid: string, dec: Decoders)
      returns (failure: Option<ParseError>)
      requires AttrsIndexable(entry.attrs) && BinaryAttrsIndexable(entry.binAttrs)
      modifies this, tables
      ensures ParseResult(Model(), tables.Model(), failure)
              == Parsed(old(Model()), old(tables.Model()), entry, domain, domainSid, dec)
      ensures old(Valid()) ==> Valid()
    {
      ghost var before, tablesBefore := Model(), tables.Model();
      SetHeader(entry.dn, domain, domainSid, dec);
      failure := ApplyAttributes(entry.attrs, domain, dec);
      if failure.Some? {
        ParsePreservesConsistency(before, tablesBefore, entry, domain, domainSid, dec);
        return;
      }
      failure := ApplyBinaryAttributes(entry.binAttrs, domain, dec);
      if failure.Some? {
        ParsePreservesConsistency(before, tablesBefore, entry, domain, domainSid, dec);
        return;
      }
      tables.Register(properties.distinguishedname, objectIdentifier);
      ParsePreservesConsistency(before, tablesBefore, entry, domain, domainSid, dec);
    }

    /** The fields `parse` sets before reading any attribute. */
    method SetHeader(dn: string, domain: string, domainSid: string, dec: Decoders)
      modifies this
      ensures Model() == WithHeader(old(Model()), dn, domain, domainSid, dec)
    {
      var resultDn := ToUpper(dn);
      properties := properties.(domain := ToUpper(domain));
      properties := properties.(distinguishedname := resultDn);
      properties := properties.(domainsid := domainSid);
      var caName := dec.nameFromDn(properties.distinguishedname);
      properties := properties.(caname := caName);
    }

    /** The loop over the text attributes, in iteration order; it stops at
        the first error. */
    method ApplyAttributes(attrs: seq<(string, seq<string>)>, domain: string, dec: Decoders)
      returns (failure: Option<ParseError>)
      requires AttrsIndexable(attrs)
      modifies this
      ensures Progress(Model(), failure) == StepAttributes(old(Model()), attrs, domain, dec)
    {
      failure := None;
      for i := 0 to |attrs|
        invariant StepAttributes(old(Model()), attrs[..i], domain, dec) == Progress(Model(), None)
        invariant failure == None
      {
        assert attrs[..i + 1][..i] == attrs[..i];
        failure := ApplyAttribute(attrs[i].0, attrs[i].1, domain, dec);
        if failure.Some? {
          StepAttributesStopAtFailure(old(Model()), attrs, i + 1, domain, dec);
          return;
        }
      }
      assert attrs[..|attrs|] == attrs;
    }

    /** The loop over the binary attributes, in iteration order; it stops at
        the first abort. */
    method ApplyBinaryAttributes(bins: seq<(string, seq<seq<byte>>)>, domain: string, dec: Decoders)
      returns (failure: Option<ParseError>)
      requires BinaryAttrsIndexable(bins)
      modifies this
      ensures Progress(Model(), failure) == StepBinaryAttributes(old(Model()), bins, domain, dec)
    {
      failure := None;
      for i := 0 to |bins|
        invariant StepBinaryAttributes(old(Model()), bins[..i], domain, dec) == Progress(Model(), None)
        invariant failure == None
      {
        assert bins[..i + 1][..i] == bins[..i];
        failure := ApplyBinaryAttribute(bins[i].0, bins[i].1, domain, dec);
        if failure.Some? {
          StepBinaryAttributesStopAtFailure(old(Model()), bins, i + 1, domain, dec);
          return;
        }
      }
      assert bins[..|bins|] == bins;
    }

    /** One arm of the text-attribute `match`. */
    method ApplyAttribute(key: string, values: seq<string>, domain: string, dec: Decoders)
      returns (failure: Option<ParseError>)
      requires key in INDEXED_KEYS ==> values != []
      modifies this
      ensures Progress(Model(), failure) == StepAttribute(old(Model()), key, values, domain, dec)
    {
      failure := None;
      match key
      case "name" =>
        properties := properties.(name := ToUpper(values[0] + "@" + domain));
      case "description" =>
        properties := properties.(description := Some(values[0]));
      case "dNSHostName" =>
        properties := properties.(dnshostname := values[0]);
      case "certificateTemplates" =>
        if values != [] {
          enabledCertTemplates := TemplateMembers(values);
        }
      case "whenCreated" =>
        match dec.stringToEpoch(values[0]) {
          case Failure(e) =>
            failure := Some(DateError(e));
          case Success(epoch) =>
            if epoch > 0 {
              properties := properties.(whencreated := epoch);
            }
        }
      case "IsDeleted" =>
        isDeleted := true;
      case _ =>
    }

    /** One arm of the binary-attribute `match`. */
    method ApplyBinaryAttribute(key: string, values: seq<seq<byte>>, domain: string, dec: Decoders)
      returns (failure: Option<ParseError>)
      requires key in INDEXED_BINARY_KEYS ==> values != []
      modifies this
      ensures Progress(Model(), failure) == StepBinaryAttribute(old(Model()), key, values, domain, dec)
    {
      failure := None;
      match key
      case "objectGUID" =>
        objectIdentifier := dec.decodeGuid(values[0]);
      case "nTSecurityDescriptor" =>
        var nt := values[0];
        aces := dec.ntSecurityDescriptor(nt, domain);
        var host := GetHostingComputer(DescriptorOf(nt, domain, dec));
        match host {
          case Failure(cause) =>
            failure := Some(Panicked(cause));
          case Success(sid) =>
            hostingComputer := sid;
            var caSecurityData := dec.caSecurity(nt, hostingComputer, domain);
            if caSecurityData != [] {
              properties := properties.(casecuritycollected := true);
              caRegistryData := NewCARegistryData(CASecurity(caSecurityData, true, None));
            } else {
              properties := properties.(casecuritycollected := false);
              caRegistryData := NewCARegistryData(CASecurity([], false, Some(CA_SECURITY_FAILURE)));
            }
        }
      case "cACertificate" =>
        var cert := values[0];
        var certSha1 := dec.sha1(cert);
        properties := properties.(certthumbprint := certSha1, certname := certSha1, certchain := [certSha1]);
        match dec.x509(cert) {
          case Some(exts) =>
            ApplyCertificateExtensions(exts);
          case None =>
        }
      case _ =>
    }

    /** The loop over the certificate's extensions. */
    method ApplyCertificateExtensions(exts: seq<Extension>)
      modifies this
      ensures Model() == old(Model()).(properties := ApplyExtensions(old(properties), exts))
    {
      for i := 0 to |exts|
        invariant Model() == old(Model()).(properties := ApplyExtensions(old(properties), exts[..i]))
      {
        assert exts[..i + 1][..i] == exts[..i];
        var ext := exts[i];
        if ext.oid == BASIC_CONSTRAINTS_OID {
          match ext.parsed {
            case BasicConstraints(_, pathLen) =>
              match pathLen {
                case Some(n) =>
                  if n > 0 {
                    properties := properties.(hasbasicconstraints := true, basicconstraintpathlength := n);
                  } else {
                    properties := properties.(hasbasicconstraints := false, basicconstraintpathlength := 0);
                  }
                case None =>
                  properties := properties.(hasbasicconstraints := false, basicconstraintpathlength := 0);
              }
            case OtherExtension =>
          }
        }
      }
      assert exts[..|exts|] == exts;
    }

    /** `EnterpriseCA::get_hosting_computer`: the trustee of the first
        qualifying ACE, "Not found", or an abort. */
    static method GetHostingComputer(view: DescriptorView) returns (r: Result<string, Panic>)
      ensures r == HostingComputerOf(view)
    {
      var hosting := NOT_FOUND;
      if view.offsetDacl.None? {
        return Failure(DescriptorUnparsable);
      }
      var offset := view.offsetDacl.value;
      if offset != 0 {
        if offset > view.length {
          return Failure(DaclOffsetPastEnd);
        }
        match view.dacl
        case Some(dacl) =>
          for i := 0 to |dacl|
            invariant Scan(dacl[i..]) == Scan(dacl)
          {
            var ace := dacl[i];
            if ace.aceType == ACCESS_ALLOWED_ACE_TYPE {
              if ace.trustee.None? {
                return Failure(TrusteeUnreadable);
              }
              var sid := ace.trustee.value;
              if ace.mask.None? {
                continue;
              }
              var mask := ace.mask.value;
              if Contains(mask, MANAGE_CERTIFICATES) && !Blacklisted(sid) {
                hosting := sid;
                return Success(hosting);
              }
            }
          }
        case None =>
      }
      return Success(hosting);
    }

    /** `set_is_acl_protected`: both copies of the flag. */
    method SetIsAclProtected(isProtected: bool)
      modifies this
      ensures Model() == old(Model()).(isAclProtected := isProtected,
                                       properties := old(properties).(isaclprotected := isProtected))
      ensures old(Valid()) ==> Valid()
    {
      isAclProtected := isProtected;
      properties := properties.(isaclprotected := isProtected);
    }

    /** `set_aces`. */
    method SetAces(newAces: seq<AceTemplate>)
      modifies this
      ensures Model() == old(Model()).(aces := newAces)
      ensures old(Valid()) ==> Valid()
    {
      aces := newAces;
    }

    /** `set_contained_by`. */
    method SetContainedBy(container: Option<Member>)
      modifies this
      ensures Model() == old(Model()).(containedBy := container)
      ensures old(Valid()) ==> Valid()
    {
      containedBy := container;
    }
  }
}
