/** What `EnterpriseCA::parse` promises about the object and the lookup
    tables, proved of its specification `CaParse.Parsed`. */
module CaParseProperties {
  import opened Common
  import opened Hosting
  import opened CaRecords
  import opened Certificate
  import opened CaParse

  type Attrs = seq<(string, seq<string>)>
  type BinaryAttrs = seq<(string, seq<seq<byte>>)>

  // ---------------------------------------------------------------------
  // Which fields each loop writes

  /** The record with the fields the text attributes write blanked out: two
      records with equal erasures differ at most in those fields. */
  function EraseAttributeFields(r: CaRecord): CaRecord {
    r.(properties := r.properties.(name := "", description := None, dnshostname := "", whencreated := 0),
       enabledCertTemplates := [], isDeleted := false)
  }

  /** The record with the fields the binary attributes write blanked out. */
  function EraseBinaryFields(r: CaRecord): CaRecord {
    r.(properties := r.properties.(casecuritycollected := false, certthumbprint := "", certname := "",
                                   certchain := [], hasbasicconstraints := false, basicconstraintpathlength := 0),
       objectIdentifier := "", aces := [], hostingComputer := "", caRegistryData := DefaultCARegistryData())
  }

  /** What one pass of the text-attribute loop leaves alone. */
  lemma StepAttributeFacts(r: CaRecord, key: string, values: seq<string>, domain: string, dec: Decoders)
    requires key in INDEXED_KEYS ==> values != []
    ensures var p := StepAttribute(r, key, values, domain, dec);
            && EraseAttributeFields(p.record) == EraseAttributeFields(r)
            && (key != "whenCreated" ==> p.failure.None? && p.record.properties.whencreated == r.properties.whencreated)
            && (key != "certificateTemplates" ==> p.record.enabledCertTemplates == r.enabledCertTemplates)
            && (key != "name" ==> p.record.properties.name == r.properties.name)
            && (key != "description" ==> p.record.properties.description == r.properties.description)
            && (key != "dNSHostName" ==> p.record.properties.dnshostname == r.properties.dnshostname)
            && (key != "IsDeleted" ==> p.record.isDeleted == r.isDeleted)
  {
    match key
    case "name" =>
    case "description" =>
    case "dNSHostName" =>
    case "certificateTemplates" =>
    case "whenCreated" =>
    case "IsDeleted" =>
    case _ =>
  }

  /** The Basic Constraints fields after the certificate arm, given the
      properties before it and what the X.509 decoder made of the certificate. */
  function BasicConstraintsAfter(p: Properties, cert: Option<seq<Extension>>): (bool, u32) {
    match cert
    case None => (p.hasbasicconstraints, p.basicconstraintpathlength)
    case Some(exts) =>
      var q := ApplyExtensions(p, exts);
      (q.hasbasicconstraints, q.basicconstraintpathlength)
  }

  /** The extension loop reads no field but the two it writes. */
  lemma {:induction false} ExtensionsSeeOnlyBasicConstraints(p1: Properties, p2: Properties, exts: seq<Extension>)
    requires p1.hasbasicconstraints == p2.hasbasicconstraints
    requires p1.basicconstraintpathlength == p2.basicconstraintpathlength
    ensures ApplyExtensions(p1, exts).hasbasicconstraints == ApplyExtensions(p2, exts).hasbasicconstraints
    ensures ApplyExtensions(p1, exts).basicconstraintpathlength == ApplyExtensions(p2, exts).basicconstraintpathlength
    decreases |exts|
  {
    if exts != [] {
      ExtensionsSeeOnlyBasicConstraints(p1, p2, exts[..|exts| - 1]);
    }
  }

  /** What the `cACertificate` arm leaves in the record: the hash of the
      certificate as thumbprint, name and one-element chain, and the Basic
      Constraints the extension loop decided. */
  ghost predicate CertificateRecorded(rec: CaRecord, before: Properties, cert: seq<byte>, dec: Decoders) {
    var thumbprint := dec.sha1(cert);
    && rec.properties.certthumbprint == thumbprint
    && rec.properties.certname == thumbprint
    && rec.properties.certchain == [thumbprint]
    && (rec.properties.hasbasicconstraints, rec.properties.basicconstraintpathlength)
       == BasicConstraintsAfter(before, dec.x509(cert))
  }

  /** What one pass of the binary-attribute loop leaves alone. */
  lemma StepBinaryAttributeFacts(r: CaRecord, key: string, values: seq<seq<byte>>, domain: string, dec: Decoders)
    requires key in INDEXED_BINARY_KEYS ==> values != []
    ensures var p := StepBinaryAttribute(r, key, values, domain, dec);
            && (key != "nTSecurityDescriptor" ==>
                  && p.failure.None?
                  && p.record.aces == r.aces
                  && p.record.hostingComputer == r.hostingComputer
                  && p.record.caRegistryData == r.caRegistryData
                  && p.record.properties.casecuritycollected == r.properties.casecuritycollected)
            && (key != "cACertificate" ==>
                  && p.record.properties.hasbasicconstraints == r.properties.hasbasicconstraints
                  && p.record.properties.basicconstraintpathlength == r.properties.basicconstraintpathlength)
            && (key != "objectGUID" ==> p.record.objectIdentifier == r.objectIdentifier)
  {
    match key
    case "objectGUID" =>
    case "nTSecurityDescriptor" =>
    case "cACertificate" =>
      var cert := values[0];
      var thumbprint := dec.sha1(cert);
      var withHash := r.properties.(certthumbprint := thumbprint, certname := thumbprint, certchain := [thumbprint]);
      if dec.x509(cert).Some? {
        OnlyBasicConstraintsChange(withHash, dec.x509(cert).value);
      }
    case _ =>
  }

  /** One pass of the binary-attribute loop writes only the fields it owns. */
  lemma StepBinaryAttributeFrame(r: CaRecord, key: string, values: seq<seq<byte>>, domain: string, dec: Decoders)
    requires key in INDEXED_BINARY_KEYS ==> values != []
    ensures EraseBinaryFields(StepBinaryAttribute(r, key, values, domain, dec).record) == EraseBinaryFields(r)
  {
    match key
    case "objectGUID" =>
    case "nTSecurityDescriptor" => DescriptorArmFrame(r, values, domain, dec);
    case "cACertificate" => CertificateArmFrame(r, values, domain, dec);
    case _ =>
  }

  /** The `nTSecurityDescriptor` arm writes the ACEs, the hosting computer,
      the registry data and the CA-security flag, and nothing else. */
  lemma DescriptorArmFrame(r: CaRecord, values: seq<seq<byte>>, domain: string, dec: Decoders)
    requires values != []
    ensures var q := StepBinaryAttribute(r, "nTSecurityDescriptor", values, domain, dec).record;
            q == r.(aces := q.aces, hostingComputer := q.hostingComputer, caRegistryData := q.caRegistryData,
                    properties := r.properties.(casecuritycollected := q.properties.casecuritycollected))
    ensures EraseBinaryFields(StepBinaryAttribute(r, "nTSecurityDescriptor", values, domain, dec).record) == EraseBinaryFields(r)
  {
    var nt := values[0];
    var withAces := r.(aces := dec.ntSecurityDescriptor(nt, domain));
    assert EraseBinaryFields(withAces) == EraseBinaryFields(r);
    match HostingComputerOf(DescriptorOf(nt, domain, dec)) {
      case Failure(_) =>
      case Success(host) =>
        var security := WrapCASecurity(dec.caSecurity(nt, host, domain));
        var q := withAces.(hostingComputer := host,
                           properties := withAces.properties.(casecuritycollected := security.collected),
                           caRegistryData := NewCARegistryData(security));
        assert EraseBinaryFields(q) == EraseBinaryFields(withAces);
    }
  }

  /** The descriptor arm aborts on the DACL slice exactly when the header's
      DACL offset is non-zero and lies past the end of the attribute's bytes. */
  lemma DescriptorArmPastEnd(r: CaRecord, values: seq<seq<byte>>, domain: string, dec: Decoders)
    requires values != []
    ensures var offset := dec.descriptor(values[0], domain).0;
            StepBinaryAttribute(r, "nTSecurityDescriptor", values, domain, dec).failure == Some(Panicked(DaclOffsetPastEnd))
            <==> offset.Some? && offset.value != 0 && offset.value > |values[0]|
  {
  }

  /** The `cACertificate` arm writes the three hash fields and the two Basic
      Constraints fields, and nothing else. */
  lemma CertificateArmFrame(r: CaRecord, values: seq<seq<byte>>, domain: string, dec: Decoders)
    requires values != []
    ensures var q := StepBinaryAttribute(r, "cACertificate", values, domain, dec).record;
            q == r.(properties := r.properties.(
                      certthumbprint := q.properties.certthumbprint, certname := q.properties.certname,
                      certchain := q.properties.certchain, hasbasicconstraints := q.properties.hasbasicconstraints,
                      basicconstraintpathlength := q.properties.basicconstraintpathlength))
    ensures EraseBinaryFields(StepBinaryAttribute(r, "cACertificate", values, domain, dec).record) == EraseBinaryFields(r)
  {
    var cert := values[0];
    var thumbprint := dec.sha1(cert);
    var withHash := r.properties.(certthumbprint := thumbprint, certname := thumbprint, certchain := [thumbprint]);
    assert EraseBinaryFields(r.(properties := withHash)) == EraseBinaryFields(r);
    if dec.x509(cert).Some? {
      OnlyBasicConstraintsChange(withHash, dec.x509(cert).value);
    }
  }

  /** What the certificate arm records, and that it keeps the object
      invariant. */
  lemma CertificateStepFacts(r: CaRecord, values: seq<seq<byte>>, domain: string, dec: Decoders)
    requires values != []
    ensures var p := StepBinaryAttribute(r, "cACertificate", values, domain, dec);
            && CertificateRecorded(p.record, r.properties, values[0], dec)
            && (Consistent(r) ==> Consistent(p.record))
  {
    var cert := values[0];
    var thumbprint := dec.sha1(cert);
    var withHash := r.properties.(certthumbprint := thumbprint, certname := thumbprint, certchain := [thumbprint]);
    if dec.x509(cert).Some? {
      var exts := dec.x509(cert).value;
      OnlyBasicConstraintsChange(withHash, exts);
      ExtensionsSeeOnlyBasicConstraints(withHash, r.properties, exts);
      if Consistent(r) {
        ApplyExtensionsKeepsConsistency(withHash, exts);
      }
    }
  }

  /** The text-attribute loop writes the name, description, host name,
      creation time, template list and deletion flag, and nothing else. */
  lemma {:induction false} AttributesTouchOnlyTheirFields(r: CaRecord, attrs: Attrs, domain: string, dec: Decoders)
    requires AttrsIndexable(attrs)
    ensures EraseAttributeFields(StepAttributes(r, attrs, domain, dec).record) == EraseAttributeFields(r)
    decreases |attrs|
  {
    if attrs != [] {
      var front, last := attrs[..|attrs| - 1], attrs[|attrs| - 1];
      AttributesTouchOnlyTheirFields(r, front, domain, dec);
      StepAttributeFacts(StepAttributes(r, front, domain, dec).record, last.0, last.1, domain, dec);
    }
  }

  /** The binary-attribute loop writes the identifier, the ACEs, the hosting
      computer, the registry data and the certificate fields, and nothing else. */
  lemma {:induction false} BinaryAttributesTouchOnlyTheirFields(r: CaRecord, bins: BinaryAttrs, domain: string, dec: Decoders)
    requires BinaryAttrsIndexable(bins)
    ensures EraseBinaryFields(StepBinaryAttributes(r, bins, domain, dec).record) == EraseBinaryFields(r)
    decreases |bins|
  {
    if bins != [] {
      var front, last := bins[..|bins| - 1], bins[|bins| - 1];
      BinaryAttributesTouchOnlyTheirFields(r, front, domain, dec);
      StepBinaryAttributeFrame(StepBinaryAttributes(r, front, domain, dec).record, last.0, last.1, domain, dec);
    }
  }

  // ---------------------------------------------------------------------
  // The fields set before the loops

  /** Whatever the outcome, the domain, distinguished name, domain SID and
      CA name are those of the entry, the first two upper-cased. */
  lemma ParsedHeaderFields(r: CaRecord, t: Tables, e: SearchEntry, domain: string, domainSid: string, dec: Decoders)
    requires AttrsIndexable(e.attrs) && BinaryAttrsIndexable(e.binAttrs)
    ensures var p := Parsed(r, t, e, domain, domainSid, dec).record.properties;
            && p.domain == ToUpper(domain)
            && p.distinguishedname == ToUpper(e.dn)
            && p.domainsid == domainSid
            && p.caname == dec.nameFromDn(ToUpper(e.dn))
  {
    var headed := WithHeader(r, e.dn, domain, domainSid, dec);
    AttributesTouchOnlyTheirFields(headed, e.attrs, domain, dec);
    var p := StepAttributes(headed, e.attrs, domain, dec);
    if p.failure.None? {
      BinaryAttributesTouchOnlyTheirFields(p.record, e.binAttrs, domain, dec);
    }
  }

  // ---------------------------------------------------------------------
  // The certificate-template list

  /** A non-empty `certificateTemplates` value becomes the template list. */
  lemma {:induction false} TemplatesFromAttributes(r: CaRecord, attrs: Attrs, domain: string, dec: Decoders, i: nat)
    requires AttrsIndexable(attrs) && DistinctKeys(attrs)
    requires i < |attrs| && attrs[i].0 == "certificateTemplates" && attrs[i].1 != []
    requires StepAttributes(r, attrs, domain, dec).failure.None?
    ensures StepAttributes(r, attrs, domain, dec).record.enabledCertTemplates == TemplateMembers(attrs[i].1)
    decreases |attrs|
  {
    var front, last := attrs[..|attrs| - 1], attrs[|attrs| - 1];
    var p := StepAttributes(r, front, domain, dec);
    if i < |attrs| - 1 {
      assert front[i] == attrs[i];
      TemplatesFromAttributes(r, front, domain, dec, i);
      StepAttributeFacts(p.record, last.0, last.1, domain, dec);
    }
  }

  /** Without a non-empty `certificateTemplates` value the list is left as it was. */
  lemma {:induction false} TemplatesKeptFromAttributes(r: CaRecord, attrs: Attrs, domain: string, dec: Decoders)
    requires AttrsIndexable(attrs)
    requires forall i :: 0 <= i < |attrs| && attrs[i].0 == "certificateTemplates" ==> attrs[i].1 == []
    ensures StepAttributes(r, attrs, domain, dec).record.enabledCertTemplates == r.enabledCertTemplates
    decreases |attrs|
  {
    if attrs != [] {
      var front, last := attrs[..|attrs| - 1], attrs[|attrs| - 1];
      TemplatesKeptFromAttributes(r, front, domain, dec);
      StepAttributeFacts(StepAttributes(r, front, domain, dec).record, last.0, last.1, domain, dec);
    }
  }

  /** After a successful parse, a non-empty `certificateTemplates` value gives
      one "CertTemplate" member per template name, in the same order. */
  lemma ParsedTemplateList(r: CaRecord, t: Tables, e: SearchEntry, domain: string, domainSid: string, dec: Decoders, i: nat)
    requires AttrsIndexable(e.attrs) && BinaryAttrsIndexable(e.binAttrs) && DistinctKeys(e.attrs)
    requires i < |e.attrs| && e.attrs[i].0 == "certificateTemplates" && e.attrs[i].1 != []
    requires Parsed(r, t, e, domain, domainSid, dec).failure.None?
    ensures var ms := Parsed(r, t, e, domain, domainSid, dec).record.enabledCertTemplates;
            && |ms| == |e.attrs[i].1|
            && Identifiers(ms) == e.attrs[i].1
            && forall j :: 0 <= j < |ms| ==> ms[j].objectType == CERT_TEMPLATE_TYPE
  {
    var headed := WithHeader(r, e.dn, domain, domainSid, dec);
    var p := StepAttributes(headed, e.attrs, domain, dec);
    TemplatesFromAttributes(headed, e.attrs, domain, dec, i);
    BinaryAttributesTouchOnlyTheirFields(p.record, e.binAttrs, domain, dec);
    TemplateMembersNames(e.attrs[i].1);
  }

  /** An empty or missing `certificateTemplates` value leaves the list
      unchanged, whatever the outcome. */
  lemma ParsedTemplateListUnchanged(r: CaRecord, t: Tables, e: SearchEntry, domain: string, domainSid: string, dec: Decoders)
    requires AttrsIndexable(e.attrs) && BinaryAttrsIndexable(e.binAttrs)
    requires forall i :: 0 <= i < |e.attrs| && e.attrs[i].0 == "certificateTemplates" ==> e.attrs[i].1 == []
    ensures Parsed(r, t, e, domain, domainSid, dec).record.enabledCertTemplates == r.enabledCertTemplates
  {
    var headed := WithHeader(r, e.dn, domain, domainSid, dec);
    TemplatesKeptFromAttributes(headed, e.attrs, domain, dec);
    var p := StepAttributes(headed, e.attrs, domain, dec);
    if p.failure.None? {
      BinaryAttributesTouchOnlyTheirFields(p.record, e.binAttrs, domain, dec);
    }
  }

  // ---------------------------------------------------------------------
  // The creation time

  /** Only a `whenCreated` value can stop the text-attribute loop. */
  lemma {:induction false} AttributesWithoutDateNeverFail(r: CaRecord, attrs: Attrs, domain: string, dec: Decoders)
    requires AttrsIndexable(attrs)
    requires forall i :: 0 <= i < |attrs| ==> attrs[i].0 != "whenCreated"
    ensures StepAttributes(r, attrs, domain, dec).failure.None?
    ensures StepAttributes(r, attrs, domain, dec).record.properties.whencreated == r.properties.whencreated
    decreases |attrs|
  {
    if attrs != [] {
      var front, last := attrs[..|attrs| - 1], attrs[|attrs| - 1];
      AttributesWithoutDateNeverFail(r, front, domain, dec);
      StepAttributeFacts(StepAttributes(r, front, domain, dec).record, last.0, last.1, domain, dec);
    }
  }

  /** A decodable `whenCreated` sets the creation time when it is positive
      and leaves it alone otherwise. */
  lemma {:induction false} CreationTimeFromAttributes(r: CaRecord, attrs: Attrs, domain: string, dec: Decoders, i: nat, epoch: int)
    requires AttrsIndexable(attrs) && DistinctKeys(attrs)
    requires i < |attrs| && attrs[i].0 == "whenCreated" && dec.stringToEpoch(attrs[i].1[0]) == Success(epoch)
    ensures StepAttributes(r, attrs, domain, dec).failure.None?
    ensures StepAttributes(r, attrs, domain, dec).record.properties.whencreated
            == if epoch > 0 then epoch else r.properties.whencreated
    decreases |attrs|
  {
    var front, last := attrs[..|attrs| - 1], attrs[|attrs| - 1];
    var p := StepAttributes(r, front, domain, dec);
    if i < |attrs| - 1 {
      assert front[i] == attrs[i];
      CreationTimeFromAttributes(r, front, domain, dec, i, epoch);
      StepAttributeFacts(p.record, last.0, last.1, domain, dec);
    } else {
      forall j | 0 <= j < |front| ensures front[j].0 != "whenCreated" {
        assert front[j] == attrs[j];
      }
      AttributesWithoutDateNeverFail(r, front, domain, dec);
    }
  }

  /** An undecodable `whenCreated` stops the text-attribute loop with the
      decoder's error. */
  lemma {:induction false} DateErrorFromAttributes(r: CaRecord, attrs: Attrs, domain: string, dec: Decoders, i: nat, message: string)
    requires AttrsIndexable(attrs) && DistinctKeys(attrs)
    requires i < |attrs| && attrs[i].0 == "whenCreated" && dec.stringToEpoch(attrs[i].1[0]) == Failure(message)
    ensures StepAttributes(r, attrs, domain, dec).failure == Some(DateError(message))
    decreases |attrs|
  {
    var front := attrs[..|attrs| - 1];
    if i < |attrs| - 1 {
      assert front[i] == attrs[i];
      DateErrorFromAttributes(r, front, domain, dec, i, message);
    } else {
      forall j | 0 <= j < |front| ensures front[j].0 != "whenCreated" {
        assert front[j] == attrs[j];
      }
      AttributesWithoutDateNeverFail(r, front, domain, dec);
    }
  }

  /** A positive decoded creation time is recorded; any other leaves the
      previous value (-1 on a fresh object). */
  lemma ParsedCreationTime(r: CaRecord, t: Tables, e: SearchEntry, domain: string, domainSid: string, dec: Decoders, i: nat, epoch: int)
    requires AttrsIndexable(e.attrs) && BinaryAttrsIndexable(e.binAttrs) && DistinctKeys(e.attrs)
    requires i < |e.attrs| && e.attrs[i].0 == "whenCreated" && dec.stringToEpoch(e.attrs[i].1[0]) == Success(epoch)
    ensures Parsed(r, t, e, domain, domainSid, dec).record.properties.whencreated
            == if epoch > 0 then epoch else r.properties.whencreated
  {
    var headed := WithHeader(r, e.dn, domain, domainSid, dec);
    CreationTimeFromAttributes(headed, e.attrs, domain, dec, i, epoch);
    BinaryAttributesTouchOnlyTheirFields(StepAttributes(headed, e.attrs, domain, dec).record, e.binAttrs, domain, dec);
  }

  /** An undecodable creation time makes `parse` return the decoder's error
      before any binary attribute is read: the identifier and the hosting
      computer are untouched and the lookup tables are left unchanged. */
  lemma ParsedDateError(r: CaRecord, t: Tables, e: SearchEntry, domain: string, domainSid: string, dec: Decoders, i: nat, message: string)
    requires AttrsIndexable(e.attrs) && BinaryAttrsIndexable(e.binAttrs) && DistinctKeys(e.attrs)
    requires i < |e.attrs| && e.attrs[i].0 == "whenCreated" && dec.stringToEpoch(e.attrs[i].1[0]) == Failure(message)
    ensures var res := Parsed(r, t, e, domain, domainSid, dec);
            && res.failure == Some(DateError(message))
            && res.tables == t
            && res.record.objectIdentifier == r.objectIdentifier
            && res.record.hostingComputer == r.hostingComputer
  {
    var headed := WithHeader(r, e.dn, domain, domainSid, dec);
    DateErrorFromAttributes(headed, e.attrs, domain, dec, i, message);
    AttributesTouchOnlyTheirFields(headed, e.attrs, domain, dec);
  }

  // ---------------------------------------------------------------------
  // The CA security wrapping

  /** What the `nTSecurityDescriptor` arm leaves in the record when the
      heuristic did not abort. */
  ghost predicate CaSecurityRecorded(rec: CaRecord, nt: seq<byte>, domain: string, dec: Decoders) {
    && HostingComputerOf(DescriptorOf(nt, domain, dec)) == Success(rec.hostingComputer)
    && rec.aces == dec.ntSecurityDescriptor(nt, domain)
    && rec.caRegistryData == NewCARegistryData(WrapCASecurity(dec.caSecurity(nt, rec.hostingComputer, domain)))
    && rec.properties.casecuritycollected == rec.caRegistryData.caSecurity.collected
  }

  lemma {:induction false} CaSecurityFromBinaryAttributes(r: CaRecord, bins: BinaryAttrs, domain: string, dec: Decoders, i: nat)
    requires BinaryAttrsIndexable(bins) && DistinctKeys(bins)
    requires i < |bins| && bins[i].0 == "nTSecurityDescriptor"
    requires StepBinaryAttributes(r, bins, domain, dec).failure.None?
    ensures CaSecurityRecorded(StepBinaryAttributes(r, bins, domain, dec).record, bins[i].1[0], domain, dec)
    decreases |bins|
  {
    var front, last := bins[..|bins| - 1], bins[|bins| - 1];
    var p := StepBinaryAttributes(r, front, domain, dec);
    if i < |bins| - 1 {
      assert front[i] == bins[i];
      CaSecurityFromBinaryAttributes(r, front, domain, dec, i);
      StepBinaryAttributeFacts(p.record, last.0, last.1, domain, dec);
    }
  }

  /** After a successful parse of a descriptor: the hosting computer is the
      heuristic's answer; the CA security data is what `parse_ca_security`
      returned; it is marked collected exactly when that is non-empty, an
      empty result carries the failure reason, and the property flag agrees
      with the registry data's. */
  lemma ParsedCaSecurity(r: CaRecord, t: Tables, e: SearchEntry, domain: string, domainSid: string, dec: Decoders, i: nat)
    requires AttrsIndexable(e.attrs) && BinaryAttrsIndexable(e.binAttrs) && DistinctKeys(e.binAttrs)
    requires i < |e.binAttrs| && e.binAttrs[i].0 == "nTSecurityDescriptor"
    requires Parsed(r, t, e, domain, domainSid, dec).failure.None?
    ensures var rec := Parsed(r, t, e, domain, domainSid, dec).record;
            var nt := e.binAttrs[i].1[0];
            var data := dec.caSecurity(nt, rec.hostingComputer, domain);
            var security := rec.caRegistryData.caSecurity;
            && HostingComputerOf(DescriptorOf(nt, domain, dec)) == Success(rec.hostingComputer)
            && rec.aces == dec.ntSecurityDescriptor(nt, domain)
            && security.data == data
            && (security.collected <==> data != [])
            && rec.properties.casecuritycollected == security.collected
            && security.failureReason == (if data != [] then None else Some(CA_SECURITY_FAILURE))
            && rec.caRegistryData == NewCARegistryData(security)
  {
    var headed := WithHeader(r, e.dn, domain, domainSid, dec);
    var p := StepAttributes(headed, e.attrs, domain, dec);
    CaSecurityFromBinaryAttributes(p.record, e.binAttrs, domain, dec, i);
  }

  /** Only an `nTSecurityDescriptor` value can stop the binary-attribute loop. */
  lemma {:induction false} BinaryAttributesWithoutDescriptorNeverFail(r: CaRecord, bins: BinaryAttrs, domain: string, dec: Decoders)
    requires BinaryAttrsIndexable(bins)
    requires forall i :: 0 <= i < |bins| ==> bins[i].0 != "nTSecurityDescriptor"
    ensures StepBinaryAttributes(r, bins, domain, dec).failure.None?
    decreases |bins|
  {
    if bins != [] {
      var front, last := bins[..|bins| - 1], bins[|bins| - 1];
      BinaryAttributesWithoutDescriptorNeverFail(r, front, domain, dec);
      StepBinaryAttributeFacts(StepBinaryAttributes(r, front, domain, dec).record, last.0, last.1, domain, dec);
    }
  }

  lemma {:induction false} HeuristicAbortFromBinaryAttributes(r: CaRecord, bins: BinaryAttrs, domain: string, dec: Decoders, i: nat, cause: Panic)
    requires BinaryAttrsIndexable(bins) && DistinctKeys(bins)
    requires i < |bins| && bins[i].0 == "nTSecurityDescriptor"
    requires HostingComputerOf(DescriptorOf(bins[i].1[0], domain, dec)) == Failure(cause)
    ensures StepBinaryAttributes(r, bins, domain, dec).failure == Some(Panicked(cause))
    decreases |bins|
  {
    var front := bins[..|bins| - 1];
    if i < |bins| - 1 {
      assert front[i] == bins[i];
      HeuristicAbortFromBinaryAttributes(r, front, domain, dec, i, cause);
    } else {
      forall j | 0 <= j < |front| ensures front[j].0 != "nTSecurityDescriptor" {
        assert front[j] == bins[j];
      }
      BinaryAttributesWithoutDescriptorNeverFail(r, front, domain, dec);
    }
  }

  /** When the hosting-computer heuristic aborts on the descriptor, so does
      `parse`, and the lookup tables are left unchanged. */
  lemma ParsedHeuristicAbort(r: CaRecord, t: Tables, e: SearchEntry, domain: string, domainSid: string, dec: Decoders, i: nat, cause: Panic)
    requires AttrsIndexable(e.attrs) && BinaryAttrsIndexable(e.binAttrs) && DistinctKeys(e.binAttrs)
    requires i < |e.binAttrs| && e.binAttrs[i].0 == "nTSecurityDescriptor"
    requires HostingComputerOf(DescriptorOf(e.binAttrs[i].1[0], domain, dec)) == Failure(cause)
    ensures var res := Parsed(r, t, e, domain, domainSid, dec);
            res.failure.Some? && res.tables == t
  {
    var headed := WithHeader(r, e.dn, domain, domainSid, dec);
    var p := StepAttributes(headed, e.attrs, domain, dec);
    if p.failure.None? {
      HeuristicAbortFromBinaryAttributes(p.record, e.binAttrs, domain, dec, i, cause);
    }
  }

  // ---------------------------------------------------------------------
  // The certificate

  /** Binary attributes other than the certificate leave the Basic
      Constraints fields alone. */
  lemma {:induction false} NoCertificateKeepsBasicConstraints(r: CaRecord, bins: BinaryAttrs, domain: string, dec: Decoders)
    requires BinaryAttrsIndexable(bins)
    requires forall i :: 0 <= i < |bins| ==> bins[i].0 != "cACertificate"
    ensures var q := StepBinaryAttributes(r, bins, domain, dec).record.properties;
            q.hasbasicconstraints == r.properties.hasbasicconstraints
            && q.basicconstraintpathlength == r.properties.basicconstraintpathlength
    decreases |bins|
  {
    if bins != [] {
      var front, last := bins[..|bins| - 1], bins[|bins| - 1];
      NoCertificateKeepsBasicConstraints(r, front, domain, dec);
      StepBinaryAttributeFacts(StepBinaryAttributes(r, front, domain, dec).record, last.0, last.1, domain, dec);
    }
  }

  lemma {:induction false} CertificateFromBinaryAttributes(r: CaRecord, bins: BinaryAttrs, domain: string, dec: Decoders, i: nat)
    requires BinaryAttrsIndexable(bins) && DistinctKeys(bins)
    requires i < |bins| && bins[i].0 == "cACertificate"
    requires StepBinaryAttributes(r, bins, domain, dec).failure.None?
    ensures CertificateRecorded(StepBinaryAttributes(r, bins, domain, dec).record, r.properties, bins[i].1[0], dec)
    decreases |bins|
  {
    var front, last := bins[..|bins| - 1], bins[|bins| - 1];
    var p := StepBinaryAttributes(r, front, domain, dec);
    if i < |bins| - 1 {
      assert front[i] == bins[i];
      CertificateFromBinaryAttributes(r, front, domain, dec, i);
      StepBinaryAttributeFacts(p.record, last.0, last.1, domain, dec);
      StepBinaryAttributeFrame(p.record, last.0, last.1, domain, dec);
    } else {
      forall j | 0 <= j < |front| ensures front[j].0 != "cACertificate" {
        assert front[j] == bins[j];
      }
      NoCertificateKeepsBasicConstraints(r, front, domain, dec);
      CertificateStepFacts(p.record, last.1, domain, dec);
      var cert := bins[i].1[0];
      if dec.x509(cert).Some? {
        ExtensionsSeeOnlyBasicConstraints(p.record.properties, r.properties, dec.x509(cert).value);
      }
    }
  }

  /** The thumbprint, the certificate name and the one-element chain are the
      same hash of the certificate. */
  lemma ParsedCertificateHash(r: CaRecord, t: Tables, e: SearchEntry, domain: string, domainSid: string, dec: Decoders, i: nat)
    requires AttrsIndexable(e.attrs) && BinaryAttrsIndexable(e.binAttrs) && DistinctKeys(e.binAttrs)
    requires i < |e.binAttrs| && e.binAttrs[i].0 == "cACertificate"
    requires Parsed(r, t, e, domain, domainSid, dec).failure.None?
    ensures var p := Parsed(r, t, e, domain, domainSid, dec).record.properties;
            && p.certthumbprint == dec.sha1(e.binAttrs[i].1[0])
            && p.certname == p.certthumbprint
            && p.certchain == [p.certthumbprint]
  {
    var headed := WithHeader(r, e.dn, domain, domainSid, dec);
    var p := StepAttributes(headed, e.attrs, domain, dec);
    CertificateFromBinaryAttributes(p.record, e.binAttrs, domain, dec, i);
  }

  /** A decoded certificate whose last Basic Constraints extension carries
      path length `n`: Basic Constraints are recorded with length `n` when
      `n > 0`, and as absent with length 0 otherwise. */
  lemma ParsedBasicConstraintsDecided(r: CaRecord, t: Tables, e: SearchEntry, domain: string, domainSid: string, dec: Decoders,
                                      i: nat, exts: seq<Extension>, k: nat)
    requires AttrsIndexable(e.attrs) && BinaryAttrsIndexable(e.binAttrs) && DistinctKeys(e.binAttrs)
    requires i < |e.binAttrs| && e.binAttrs[i].0 == "cACertificate"
    requires dec.x509(e.binAttrs[i].1[0]) == Some(exts)
    requires k < |exts| && IsBasicConstraints(exts[k])
    requires forall j :: k < j < |exts| ==> !IsBasicConstraints(exts[j])
    requires Parsed(r, t, e, domain, domainSid, dec).failure.None?
    ensures var p := Parsed(r, t, e, domain, domainSid, dec).record.properties;
            var pathLen := exts[k].parsed.pathLenConstraint;
            && (p.hasbasicconstraints <==> pathLen.Some? && pathLen.value > 0)
            && p.basicconstraintpathlength == (if p.hasbasicconstraints then pathLen.value else 0)
  {
    var headed := WithHeader(r, e.dn, domain, domainSid, dec);
    var p := StepAttributes(headed, e.attrs, domain, dec);
    CertificateFromBinaryAttributes(p.record, e.binAttrs, domain, dec, i);
    LastBasicConstraintsDecides(p.record.properties, exts, k);
  }

  /** A certificate that does not decode, or has no Basic Constraints
      extension, leaves both fields as they were; so does an entry without
      a certificate. */
  predicate LeavesBasicConstraints(cert: Option<seq<Extension>>) {
    match cert
    case None => true
    case Some(exts) => forall j :: 0 <= j < |exts| ==> !IsBasicConstraints(exts[j])
  }

  lemma {:induction false} BasicConstraintsKeptFromBinaryAttributes(r: CaRecord, bins: BinaryAttrs, domain: string, dec: Decoders)
    requires BinaryAttrsIndexable(bins)
    requires forall i :: 0 <= i < |bins| && bins[i].0 == "cACertificate" ==> LeavesBasicConstraints(dec.x509(bins[i].1[0]))
    ensures var q := StepBinaryAttributes(r, bins, domain, dec).record.properties;
            q.hasbasicconstraints == r.properties.hasbasicconstraints
            && q.basicconstraintpathlength == r.properties.basicconstraintpathlength
    decreases |bins|
  {
    if bins != [] {
      var front, last := bins[..|bins| - 1], bins[|bins| - 1];
      BasicConstraintsKeptFromBinaryAttributes(r, front, domain, dec);
      var p := StepBinaryAttributes(r, front, domain, dec);
      StepBinaryAttributeFacts(p.record, last.0, last.1, domain, dec);
      if last.0 == "cACertificate" {
        assert LeavesBasicConstraints(dec.x509(last.1[0])) by {
          assert bins[|bins| - 1] == last;
        }
        CertificateStepFacts(p.record, last.1, domain, dec);
        if dec.x509(last.1[0]).Some? {
          NoBasicConstraintsKeepsProperties(p.record.properties, dec.x509(last.1[0]).value);
        }
      }
    }
  }

  lemma ParsedBasicConstraintsKept(r: CaRecord, t: Tables, e: SearchEntry, domain: string, domainSid: string, dec: Decoders)
    requires AttrsIndexable(e.attrs) && BinaryAttrsIndexable(e.binAttrs)
    requires forall i :: 0 <= i < |e.binAttrs| && e.binAttrs[i].0 == "cACertificate" ==>
               LeavesBasicConstraints(dec.x509(e.binAttrs[i].1[0]))
    ensures var p := Parsed(r, t, e, domain, domainSid, dec).record.properties;
            p.hasbasicconstraints == r.properties.hasbasicconstraints
            && p.basicconstraintpathlength == r.properties.basicconstraintpathlength
  {
    var headed := WithHeader(r, e.dn, domain, domainSid, dec);
    AttributesTouchOnlyTheirFields(headed, e.attrs, domain, dec);
    var p := StepAttributes(headed, e.attrs, domain, dec);
    if p.failure.None? {
      BasicConstraintsKeptFromBinaryAttributes(p.record, e.binAttrs, domain, dec);
    }
  }

  // ---------------------------------------------------------------------
  // The identifier and the lookup tables

  lemma {:induction false} IdentifierFromBinaryAttributes(r: CaRecord, bins: BinaryAttrs, domain: string, dec: Decoders, i: nat)
    requires BinaryAttrsIndexable(bins) && DistinctKeys(bins)
    requires i < |bins| && bins[i].0 == "objectGUID"
    requires StepBinaryAttributes(r, bins, domain, dec).failure.None?
    ensures StepBinaryAttributes(r, bins, domain, dec).record.objectIdentifier == dec.decodeGuid(bins[i].1[0])
    decreases |bins|
  {
    var front, last := bins[..|bins| - 1], bins[|bins| - 1];
    var p := StepBinaryAttributes(r, front, domain, dec);
    if i < |bins| - 1 {
      assert front[i] == bins[i];
      IdentifierFromBinaryAttributes(r, front, domain, dec, i);
      StepBinaryAttributeFacts(p.record, last.0, last.1, domain, dec);
    }
  }

  lemma {:induction false} IdentifierKeptFromBinaryAttributes(r: CaRecord, bins: BinaryAttrs, domain: string, dec: Decoders)
    requires BinaryAttrsIndexable(bins)
    requires forall i :: 0 <= i < |bins| ==> bins[i].0 != "objectGUID"
    ensures StepBinaryAttributes(r, bins, domain, dec).record.objectIdentifier == r.objectIdentifier
    decreases |bins|
  {
    if bins != [] {
      var front, last := bins[..|bins| - 1], bins[|bins| - 1];
      IdentifierKeptFromBinaryAttributes(r, front, domain, dec);
      StepBinaryAttributeFacts(StepBinaryAttributes(r, front, domain, dec).record, last.0, last.1, domain, dec);
    }
  }

  /** After a successful parse the object is registered under its
      upper-cased distinguished name, with the identifier decoded from its
      `objectGUID` (unless that identifier is "SID"); no other key of either
      table changes. */
  lemma ParsedRegistersObject(r: CaRecord, t: Tables, e: SearchEntry, domain: string, domainSid: string, dec: Decoders, i: nat)
    requires AttrsIndexable(e.attrs) && BinaryAttrsIndexable(e.binAttrs) && DistinctKeys(e.binAttrs)
    requires i < |e.binAttrs| && e.binAttrs[i].0 == "objectGUID"
    requires Parsed(r, t, e, domain, domainSid, dec).failure.None?
    ensures var res := Parsed(r, t, e, domain, domainSid, dec);
            var dn := ToUpper(e.dn);
            var id := dec.decodeGuid(e.binAttrs[i].1[0]);
            && res.record.objectIdentifier == id
            && (id != SKIPPED_IDENTIFIER ==>
                  && res.tables.dnSid.Keys == t.dnSid.Keys + {dn} && res.tables.dnSid[dn] == id
                  && res.tables.sidType.Keys == t.sidType.Keys + {id} && res.tables.sidType[id] == OBJECT_KIND)
            && (id == SKIPPED_IDENTIFIER ==> res.tables == t)
            && (forall k :: k in t.dnSid && k != dn ==> k in res.tables.dnSid && res.tables.dnSid[k] == t.dnSid[k])
            && (forall k :: k in t.sidType && k != id ==> k in res.tables.sidType && res.tables.sidType[k] == t.sidType[k])
  {
    ParsedHeaderFields(r, t, e, domain, domainSid, dec);
    var headed := WithHeader(r, e.dn, domain, domainSid, dec);
    var p := StepAttributes(headed, e.attrs, domain, dec);
    IdentifierFromBinaryAttributes(p.record, e.binAttrs, domain, dec, i);
  }

  /** A fresh object parsed from an entry without `objectGUID` keeps the
      empty identifier, which is not "SID": the object is registered under
      the empty identifier. */
  lemma ParsedWithoutGuidRegistersEmptyIdentifier(t: Tables, e: SearchEntry, domain: string, domainSid: string, dec: Decoders)
    requires AttrsIndexable(e.attrs) && BinaryAttrsIndexable(e.binAttrs)
    requires forall i :: 0 <= i < |e.binAttrs| ==> e.binAttrs[i].0 != "objectGUID"
    requires Parsed(DefaultRecord(), t, e, domain, domainSid, dec).failure.None?
    ensures var res := Parsed(DefaultRecord(), t, e, domain, domainSid, dec);
            && res.record.objectIdentifier == ""
            && ToUpper(e.dn) in res.tables.dnSid && res.tables.dnSid[ToUpper(e.dn)] == ""
            && "" in res.tables.sidType && res.tables.sidType[""] == OBJECT_KIND
  {
    ParsedHeaderFields(DefaultRecord(), t, e, domain, domainSid, dec);
    var headed := WithHeader(DefaultRecord(), e.dn, domain, domainSid, dec);
    AttributesTouchOnlyTheirFields(headed, e.attrs, domain, dec);
    var p := StepAttributes(headed, e.attrs, domain, dec);
    IdentifierKeptFromBinaryAttributes(p.record, e.binAttrs, domain, dec);
  }

  // ---------------------------------------------------------------------
  // The object invariant

  lemma {:induction false} BinaryAttributesKeepConsistency(r: CaRecord, bins: BinaryAttrs, domain: string, dec: Decoders)
    requires BinaryAttrsIndexable(bins) && Consistent(r)
    ensures Consistent(StepBinaryAttributes(r, bins, domain, dec).record)
    decreases |bins|
  {
    if bins != [] {
      var front, last := bins[..|bins| - 1], bins[|bins| - 1];
      BinaryAttributesKeepConsistency(r, front, domain, dec);
      var p := StepBinaryAttributes(r, front, domain, dec);
      StepBinaryAttributeFacts(p.record, last.0, last.1, domain, dec);
      StepBinaryAttributeFrame(p.record, last.0, last.1, domain, dec);
      if last.0 == "cACertificate" {
        CertificateStepFacts(p.record, last.1, domain, dec);
      }
    }
  }

  /** `parse` keeps the object invariant, whatever its outcome. */
  lemma ParsePreservesConsistency(r: CaRecord, t: Tables, e: SearchEntry, domain: string, domainSid: string, dec: Decoders)
    requires AttrsIndexable(e.attrs) && BinaryAttrsIndexable(e.binAttrs)
    ensures Consistent(r) ==> Consistent(Parsed(r, t, e, domain, domainSid, dec).record)
  {
    if !Consistent(r) {
      return;
    }
    var headed := WithHeader(r, e.dn, domain, domainSid, dec);
    AttributesTouchOnlyTheirFields(headed, e.attrs, domain, dec);
    var p := StepAttributes(headed, e.attrs, domain, dec);
    if p.failure.None? {
      BinaryAttributesKeepConsistency(p.record, e.binAttrs, domain, dec);
    }
  }

  /** A fresh object satisfies the invariant; its CA security starts out
      marked collected while the property flag says not collected. */
  lemma DefaultRecordFacts()
    ensures Consistent(DefaultRecord())
    ensures DefaultRecord().caRegistryData.caSecurity.collected
    ensures !DefaultRecord().properties.casecuritycollected
    ensures DefaultRecord().properties.whencreated == -1
  {
  }
}
