/** What `EnterpriseCA::parse` does to the object and to the two lookup
    tables, as functions of the object's previous state.

    A directory entry arrives as a distinguished name and two attribute maps
    (text and binary). The maps are lists of (attribute name, values) pairs
    in the order the map is iterated; that order is not fixed by the map, so
    it is an input here. The foreign decoders the parser calls are the fields
    of a `Decoders` record. */
module CaParse {
  import opened Common
  import opened Hosting
  import opened CaRecords
  import opened Certificate

  /** The object kind recorded in the identifier-to-kind table. */
  const OBJECT_KIND: string := "EnterpriseCA"

  /** The identifier for which the lookup tables are left alone. */
  const SKIPPED_IDENTIFIER: string := "SID"

  /** Text attributes whose first value the parser reads. */
  const INDEXED_KEYS: set<string> := {"name", "description", "dNSHostName", "whenCreated"}

  /** Binary attributes whose first value the parser reads. */
  const INDEXED_BINARY_KEYS: set<string> := {"objectGUID", "nTSecurityDescriptor", "cACertificate"}

  /** A directory search result: `SearchEntry`'s `dn`, `attrs` and `bin_attrs`. */
  datatype SearchEntry = SearchEntry(
    dn: string,
    attrs: seq<(string, seq<string>)>,
    binAttrs: seq<(string, seq<seq<byte>>)>)

  /** The foreign functions the parser calls, none of which is part of this
      model. */
  datatype Decoders = Decoders(
    nameFromDn: string -> string,                                 // get_name_from_full_distinguishedname
    stringToEpoch: string -> Result<int, string>,                 // string_to_epoch
    decodeGuid: seq<byte> -> string,                              // decode_guid_le
    ntSecurityDescriptor: (seq<byte>, string) -> seq<AceTemplate>, // parse_ntsecuritydescriptor
    descriptor: (seq<byte>, string) -> (Option<u32>, Option<seq<AceRecord>>), // SecurityDescriptor::parse, Acl::parse, AceFormat, sid_maker
    caSecurity: (seq<byte>, string, string) -> seq<AceTemplate>,  // parse_ca_security
    sha1: seq<byte> -> string,                                    // calculate_sha1
    x509: seq<byte> -> Option<seq<Extension>>)                    // X509Certificate::from_der, then its extensions

  /** The heuristic's view of one `nTSecurityDescriptor` value: the length of
      the buffer itself, against which the DACL slice is taken, with the DACL
      offset and the ACEs the decoders find in it. */
  function DescriptorOf(nt: seq<byte>, domain: string, dec: Decoders): (v: DescriptorView)
    ensures v.length == |nt|
  {
    var (offset, dacl) := dec.descriptor(nt, domain);
    DescriptorView(|nt|, offset, dacl)
  }

  /** The state of one `EnterpriseCA` object. */
  datatype CaRecord = CaRecord(
    properties: Properties,
    hostingComputer: string,
    caRegistryData: CARegistryData,
    enabledCertTemplates: seq<Member>,
    aces: seq<AceTemplate>,
    objectIdentifier: string,
    isDeleted: bool,
    isAclProtected: bool,
    containedBy: Option<Member>)

  /** The caller's lookup tables: distinguished name to identifier, and
      identifier to object kind. */
  datatype Tables = Tables(dnSid: map<string, string>, sidType: map<string, string>)

  /** How parsing stops early: the date decoder's error, returned to the
      caller, or one of the heuristic's aborts. */
  datatype ParseError = DateError(message: string) | Panicked(cause: Panic)

  /** The object after some attributes, and whether parsing stopped. */
  datatype Progress = Progress(record: CaRecord, failure: Option<ParseError>)

  datatype ParseResult = ParseResult(record: CaRecord, tables: Tables, failure: Option<ParseError>)

  /** `EnterpriseCA::new`. */
  function DefaultRecord(): (r: CaRecord)
    ensures r.properties == DefaultProperties() && r.caRegistryData == DefaultCARegistryData()
    ensures r.hostingComputer == r.objectIdentifier == "" && r.enabledCertTemplates == [] && r.aces == []
    ensures !r.isDeleted && !r.isAclProtected && r.containedBy == None
  {
    CaRecord(DefaultProperties(), "", DefaultCARegistryData(), [], [], "", false, false, None)
  }

  /** The object invariant the setters and the parser keep: the two copies of
      the "ACL protected" flag agree, and Basic Constraints are recorded
      exactly with a positive path length. */
  predicate Consistent(r: CaRecord) {
    r.isAclProtected == r.properties.isaclprotected && BasicConstraintsConsistent(r.properties)
  }

  predicate DistinctKeys<V>(entries: seq<(string, V)>) {
    forall i, j :: 0 <= i < j < |entries| ==> entries[i].0 != entries[j].0
  }

  predicate AttrsIndexable(attrs: seq<(string, seq<string>)>) {
    forall i :: 0 <= i < |attrs| && attrs[i].0 in INDEXED_KEYS ==> attrs[i].1 != []
  }

  predicate BinaryAttrsIndexable(bins: seq<(string, seq<seq<byte>>)>) {
    forall i :: 0 <= i < |bins| && bins[i].0 in INDEXED_BINARY_KEYS ==> bins[i].1 != []
  }

  /** The fields set before the attribute loops. */
  function WithHeader(r: CaRecord, dn: string, domain: string, domainSid: string, dec: Decoders): CaRecord {
    var upperDn := ToUpper(dn);
    r.(properties := r.properties.(
         domain := ToUpper(domain),
         distinguishedname := upperDn,
         domainsid := domainSid,
         caname := dec.nameFromDn(upperDn)))
  }

  /** One pass of the text-attribute loop. */
  function StepAttribute(r: CaRecord, key: string, values: seq<string>, domain: string, dec: Decoders): Progress
    requires key in INDEXED_KEYS ==> values != []
  {
    match key
    case "name" => Progress(r.(properties := r.properties.(name := ToUpper(values[0] + "@" + domain))), None)
    case "description" => Progress(r.(properties := r.properties.(description := Some(values[0]))), None)
    case "dNSHostName" => Progress(r.(properties := r.properties.(dnshostname := values[0])), None)
    case "certificateTemplates" =>
      if values == [] then Progress(r, None)
      else Progress(r.(enabledCertTemplates := TemplateMembers(values)), None)
    case "whenCreated" =>
      (match dec.stringToEpoch(values[0])
       case Failure(e) => Progress(r, Some(DateError(e)))
       case Success(epoch) =>
         if epoch > 0 then Progress(r.(properties := r.properties.(whencreated := epoch)), None)
         else Progress(r, None))
    case "IsDeleted" => Progress(r.(isDeleted := true), None)
    case _ => Progress(r, None)
  }

  /** The text-attribute loop, in iteration order, stopping at the first error. */
  function StepAttributes(r: CaRecord, attrs: seq<(string, seq<string>)>, domain: string, dec: Decoders): Progress
    requires AttrsIndexable(attrs)
    decreases |attrs|
  {
    if attrs == [] then Progress(r, None)
    else
      var p := StepAttributes(r, attrs[..|attrs| - 1], domain, dec);
      if p.failure.Some? then p
      else StepAttribute(p.record, attrs[|attrs| - 1].0, attrs[|attrs| - 1].1, domain, dec)
  }

  /** One pass of the binary-attribute loop. */
  function StepBinaryAttribute(r: CaRecord, key: string, values: seq<seq<byte>>, domain: string, dec: Decoders): Progress
    requires key in INDEXED_BINARY_KEYS ==> values != []
  {
    match key
    case "objectGUID" => Progress(r.(objectIdentifier := dec.decodeGuid(values[0])), None)
    case "nTSecurityDescriptor" =>
      var nt := values[0];
      var withAces := r.(aces := dec.ntSecurityDescriptor(nt, domain));
      (match HostingComputerOf(DescriptorOf(nt, domain, dec))
       case Failure(cause) => Progress(withAces, Some(Panicked(cause)))
       case Success(host) =>
         var security := WrapCASecurity(dec.caSecurity(nt, host, domain));
         Progress(withAces.(hostingComputer := host,
                            properties := withAces.properties.(casecuritycollected := security.collected),
                            caRegistryData := NewCARegistryData(security)), None))
    case "cACertificate" =>
      var cert := values[0];
      var thumbprint := dec.sha1(cert);
      var withHash := r.properties.(certthumbprint := thumbprint, certname := thumbprint, certchain := [thumbprint]);
      (match dec.x509(cert)
       case None => Progress(r.(properties := withHash), None)
       case Some(exts) => Progress(r.(properties := ApplyExtensions(withHash, exts)), None))
    case _ => Progress(r, None)
  }

  /** The binary-attribute loop, in iteration order, stopping at the first abort. */
  function StepBinaryAttributes(r: CaRecord, bins: seq<(string, seq<seq<byte>>)>, domain: string, dec: Decoders): Progress
    requires BinaryAttrsIndexable(bins)
    decreases |bins|
  {
    if bins == [] then Progress(r, None)
    else
      var p := StepBinaryAttributes(r, bins[..|bins| - 1], domain, dec);
      if p.failure.Some? then p
      else StepBinaryAttribute(p.record, bins[|bins| - 1].0, bins[|bins| - 1].1, domain, dec)
  }

  /** The lookup-table update: unless the identifier is "SID", the
      distinguished name now maps to the identifier and the identifier to
      "EnterpriseCA"; no other key changes. */
  function Register(t: Tables, dn: string, id: string): (u: Tables)
    ensures id == SKIPPED_IDENTIFIER ==> u == t
    ensures id != SKIPPED_IDENTIFIER ==>
      && u.dnSid.Keys == t.dnSid.Keys + {dn} && u.dnSid[dn] == id
      && u.sidType.Keys == t.sidType.Keys + {id} && u.sidType[id] == OBJECT_KIND
    ensures forall k :: k in t.dnSid && k != dn ==> k in u.dnSid && u.dnSid[k] == t.dnSid[k]
    ensures forall k :: k in t.sidType && k != id ==> k in u.sidType && u.sidType[k] == t.sidType[k]
  {
    if id != SKIPPED_IDENTIFIER then Tables(t.dnSid[dn := id], t.sidType[id := OBJECT_KIND]) else t
  }

  /** `EnterpriseCA::parse`: the header fields, the text attributes, the
      binary attributes, then the lookup tables. An error or an abort leaves
      the tables as they were. */
  function Parsed(r: CaRecord, t: Tables, e: SearchEntry, domain: string, domainSid: string, dec: Decoders): ParseResult
    requires AttrsIndexable(e.attrs) && BinaryAttrsIndexable(e.binAttrs)
  {
    var p := StepAttributes(WithHeader(r, e.dn, domain, domainSid, dec), e.attrs, domain, dec);
    if p.failure.Some? then ParseResult(p.record, t, p.failure)
    else
      var q := StepBinaryAttributes(p.record, e.binAttrs, domain, dec);
      if q.failure.Some? then ParseResult(q.record, t, q.failure)
      else ParseResult(q.record, Register(t, q.record.properties.distinguishedname, q.record.objectIdentifier), None)
  }

  /** Once the text-attribute loop has stopped, later attributes change nothing. */
  lemma {:induction false} StepAttributesStopAtFailure(r: CaRecord, attrs: seq<(string, seq<string>)>, n: nat, domain: string, dec: Decoders)
    requires AttrsIndexable(attrs) && n <= |attrs|
    requires StepAttributes(r, attrs[..n], domain, dec).failure.Some?
    ensures StepAttributes(r, attrs, domain, dec) == StepAttributes(r, attrs[..n], domain, dec)
    decreases |attrs|
  {
    if n < |attrs| {
      var front := attrs[..|attrs| - 1];
      assert front[..n] == attrs[..n];
      StepAttributesStopAtFailure(r, front, n, domain, dec);
    } else {
      assert attrs[..n] == attrs;
    }
  }

  /** Once the binary-attribute loop has stopped, later attributes change nothing. */
  lemma {:induction false} StepBinaryAttributesStopAtFailure(r: CaRecord, bins: seq<(string, seq<seq<byte>>)>, n: nat, domain: string, dec: Decoders)
    requires BinaryAttrsIndexable(bins) && n <= |bins|
    requires StepBinaryAttributes(r, bins[..n], domain, dec).failure.Some?
    ensures StepBinaryAttributes(r, bins, domain, dec) == StepBinaryAttributes(r, bins[..n], domain, dec)
    decreases |bins|
  {
    if n < |bins| {
      var front := bins[..|bins| - 1];
      assert front[..n] == bins[..n];
      StepBinaryAttributesStopAtFailure(r, front, n, domain, dec);
    } else {
      assert bins[..n] == bins;
    }
  }
}
