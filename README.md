# Enterprise CA object of RustHound-CE, in Dafny

RustHound-CE collects Active Directory objects over LDAP and turns each into a
BloodHound record. This project models its Enterprise Certification Authority
object, `src/objects/enterpriseca.rs`:

- **Parsing.** `EnterpriseCA::parse` fills the object from one LDAP search entry:
  - it upper-cases and records the distinguished name, the domain, the domain SID and the CA name;
  - it dispatches the text attributes (`name`, `description`, `dNSHostName`, `certificateTemplates`, `whenCreated`, `IsDeleted`);
  - it dispatches the binary attributes (`objectGUID`, `nTSecurityDescriptor`, `cACertificate`);
  - it then registers the object in the caller's two lookup tables, distinguished name to identifier and identifier to object kind.
- **The hosting-computer heuristic.** `EnterpriseCA::get_hosting_computer` takes the first access-allowed ACE of the CA's DACL that grants Manage Certificates to a principal other than Administrators (-544), Enterprise Admins (-519) or Domain Admins (-512).
- **The CA-security wrapping** of what `parse_ca_security` returns.
- **The Basic Constraints decision** over the certificate's extensions. The extension is id-ce-basicConstraints, 2.5.29.19, section 4.2.1.9 of RFC 5280.
- **The template list** built from the `certificateTemplates` values.
- **The `Default` values** of the property and registry records, and the setters.

Layout:

- `common.dfy` (`Common`): `Option`, `Result`, `u32`, bytes, `EndsWith` and an ASCII `ToUpper`.
- `rights.dfy` (`Rights`): the `MANAGE_CERTIFICATES` right and the mask-containment test.
- `hosting.dfy` (`Hosting`): the heuristic as the function `Scan` over decoded ACEs, with its first-match, exclusion and abort lemmas.
- `records.dfy` (`CaRecords`): `EnterpriseCAProperties`, `CARegistryData` and its parts, their defaults, the CA-security wrapping and the template list.
- `certificate.dfy` (`Certificate`): the Basic Constraints decision over a list of decoded extensions.
- `parse_spec.dfy` (`CaParse`): `parse` as functions of the previous state.
  - `StepAttribute` and `StepBinaryAttribute` are one arm of each `match`.
  - `StepAttributes` and `StepBinaryAttributes` are the loops.
  - `Register` is the table update, and `Parsed` is the whole call.
- `parse_properties.dfy` (`CaParseProperties`): what `parse` promises, proved about `Parsed`.
- `enterpriseca.dfy` (`EnterpriseCAObject`): the classes.
  - `EnterpriseCA` has the Rust struct's fields, and `LookupTables` holds the two maps.
  - Their methods update the fields in place. Each is proved equal to the specification functions, on every exit path.

The foreign functions `parse` calls are passed in as the fields of a `Decoders` value. Their results are therefore arbitrary, and every lemma holds for any decoder.

The attribute maps are Rust `HashMap`s, whose iteration order is not fixed. They are modelled as sequences of (name, values) pairs, so the order is an input. The lemmas that single out one attribute assume distinct names, as a map guarantees.

A panic of the heuristic is an explicit outcome, `Panicked`, of the parse. It has three causes: an `unwrap` on a descriptor that does not parse, a DACL offset past the end of the buffer, or an `unwrap` on an unreadable trustee SID.

A `whenCreated` that does not decode is the `DateError` outcome, which `?` returns to the caller.

Behaviours of the code that the lemmas record:

- A fresh object starts with identifier `""`, not `"SID"`. An entry without `objectGUID` is therefore registered under the empty identifier (`ParsedWithoutGuidRegistersEmptyIdentifier`).
- A fresh object's `CASecurity` says `collected = true`, while its `casecuritycollected` property says `false` (`DefaultRecordFacts`).
- A failed `parse` has already changed the fields it reached before stopping. Only the lookup tables are left untouched.

## Model

| member | source | states |
|---|---|---|
| Common.EndsWith | src/objects/enterpriseca.rs:272 | `str::ends_with`: the suffix is no longer than the string and equals its tail |
| Rights.Contains | src/objects/enterpriseca.rs:271 | the test that OR-ing `MANAGE_CERTIFICATES` into the mask leaves the mask unchanged; `ContainsIsAndTest` proves it means every required bit is set |
| Hosting.Blacklisted | src/objects/enterpriseca.rs:250-272 | a SID ends with one of -544, -519 or -512, the blacklist of lines 250-255 as tested at line 272 |
| Hosting.Scan | src/objects/enterpriseca.rs:264-279 | the ACE loop: other types are passed over, an unreadable SID aborts, an unreadable mask is skipped, the first unblacklisted Manage Certificates grantee is returned; the lemmas above relate it to `IsFirstDecisive` |
| Hosting.HostingComputerOf | src/objects/enterpriseca.rs:245-285 | the whole heuristic: header decode, zero offset, the DACL slice, the ACL decode and the scan, with "Not found" as fallback |
| CaParse.DescriptorOf | src/objects/enterpriseca.rs:256-259 | the heuristic's view of the descriptor has the attribute's own byte length, against which the DACL slice is taken |
| CaParse.WithHeader | src/objects/enterpriseca.rs:84-89 | the four header assignments; `ParsedHeaderFields` states them after parse |
| CaParse.StepAttribute | src/objects/enterpriseca.rs:93-131 | one arm of the text-attribute match; `StepAttributeFacts` states its frame |
| CaParse.StepAttributes | src/objects/enterpriseca.rs:92-132 | the text-attribute loop in iteration order, stopping at the first error |
| CaParse.StepBinaryAttribute | src/objects/enterpriseca.rs:136-223 | one arm of the binary-attribute match; `StepBinaryAttributeFacts` and the arm frames state what it writes |
| CaParse.StepBinaryAttributes | src/objects/enterpriseca.rs:135-224 | the binary-attribute loop in iteration order, stopping at the first abort |
| CaParse.Parsed | src/objects/enterpriseca.rs:60-242 | the whole of `parse`: header, text attributes, binary attributes, then the lookup tables only on success |
| Certificate.ApplyExtension | src/objects/enterpriseca.rs:190-217 | one pass of the extension loop: a Basic Constraints extension sets both fields by `BasicConstraintsDecision`, any other extension changes nothing |
| Certificate.ApplyExtensions | src/objects/enterpriseca.rs:190-217 | the extension loop in the certificate's order; `LastBasicConstraintsDecides` and `OnlyBasicConstraintsChange` state its effect |
| CaRecords.DefaultCARegistryData | src/objects/enterpriseca.rs:413-424 | the derived `Default`: every part at its own default |
| Rights.ContainsIsAndTest | src/objects/enterpriseca.rs:271 | the OR-equality test on the mask holds exactly when every required bit is set in the mask (both directions) |
| Rights.ContainsMonotone | src/objects/enterpriseca.rs:271 | a mask that grants the right still grants it with more bits set |
| Rights.ContainsExamples | src/objects/enterpriseca.rs:271 | 0x3 contains 0x1 and does not contain 0x4 |
| Hosting.ScanStopsAtFirstDecisive | src/objects/enterpriseca.rs:264-277 | the first ACE that qualifies or aborts decides the scan: a qualifying one gives its trustee SID |
| Hosting.ScanMatchIsFirstQualifying | src/objects/enterpriseca.rs:264-277 | a returned SID is the trustee of the first qualifying ACE in stored order, and no earlier ACE qualified or aborted |
| Hosting.ScanNoMatchIff | src/objects/enterpriseca.rs:264-279 | the scan finds nothing if and only if no ACE qualifies or aborts |
| Hosting.ScanMatchNotBlacklisted | src/objects/enterpriseca.rs:250-272 | a returned SID never ends with -544, -519 or -512 |
| Hosting.ScanIgnoresLaterAces | src/objects/enterpriseca.rs:264-277 | ACEs after the deciding one do not change the result |
| Hosting.ScanSkipsUndecisive | src/objects/enterpriseca.rs:264-279 | a run of ACEs of another type, without a mask, without the right or with a blacklisted grantee is skipped wherever it stands |
| Hosting.BlacklistedGranteeSkipped | src/objects/enterpriseca.rs:272 | an ACE whose grantee is blacklisted is skipped whatever its mask and position |
| Hosting.ScanSeesOnlyAllowedAces | src/objects/enterpriseca.rs:265 | dropping every ACE whose type is not 0x00 leaves the result unchanged |
| Hosting.NotFoundCases | src/objects/enterpriseca.rs:249-284 | "Not found" when the DACL offset is 0, when the ACL does not parse, or when no ACE qualifies or aborts |
| Hosting.HostingComputerFound | src/objects/enterpriseca.rs:245-285 | a found hosting computer comes from a DACL at a non-zero offset, is the trustee of the first qualifying ACE, and is not blacklisted |
| Hosting.HostingComputerPanics | src/objects/enterpriseca.rs:256-266 | the heuristic aborts exactly when the header does not parse, the DACL offset lies past the buffer, or an access-allowed ACE with no readable SID comes before any match |
| Hosting.BlacklistOrderExample | src/objects/enterpriseca.rs:250-277 | with ACEs for Domain Admins and for a machine account, the machine account is found in either order |
| Hosting.AllGranteesBlacklisted | src/objects/enterpriseca.rs:264-284 | when every access-allowed ACE has a readable SID and every access-allowed Manage Certificates grantee is blacklisted, nothing is found; ACEs of other types may have unreadable SIDs |
| EnterpriseCAObject.EnterpriseCA.GetHostingComputer | src/objects/enterpriseca.rs:245-285 | the loop with its `continue` and early `return` computes the heuristic `HostingComputerOf` on every path |
| Common.ToUpper | src/objects/enterpriseca.rs:68 | same length; lower-case ASCII letters become upper-case, other characters are kept, and no lower-case letter remains |
| CaRecords.DefaultProperties | src/objects/enterpriseca.rs:385-410 | creation time -1; empty strings and lists; no description; no Basic Constraints, with length 0; every "collected" flag false |
| CaRecords.DefaultCASecurity | src/objects/enterpriseca.rs:448-456 | no data, yet collected and without a failure reason |
| CaRecords.DefaultEnrollmentAgentRestrictions | src/objects/enterpriseca.rs:469-477 | no restrictions, collected, no failure reason |
| CaRecords.DefaultIsUserSpecifiesSanEnabled | src/objects/enterpriseca.rs:490-498 | value false, collected, no failure reason |
| CaRecords.DefaultRoleSeparationEnabled | src/objects/enterpriseca.rs:511-519 | value false, collected, no failure reason |
| CaRecords.NewCARegistryData | src/objects/enterpriseca.rs:425-434 | the given CA security, with every other part at its default |
| CaRecords.WrapCASecurity | src/objects/enterpriseca.rs:158-176 | collected if and only if the decoded list is non-empty; the data is that list; no failure reason when collected, "Failed to get CASecurity!" otherwise |
| CaRecords.TemplateMembers | src/objects/enterpriseca.rs:111-117 | one member per template name, same length and order, each of type "CertTemplate" |
| CaRecords.TemplateMembersNames | src/objects/enterpriseca.rs:111-118 | the identifiers of the template list are exactly the template names, in order |
| Certificate.BasicConstraintsDecision | src/objects/enterpriseca.rs:199-214 | Basic Constraints recorded if and only if the path length is present and positive; the length is that value, 0 otherwise |
| Certificate.NoBasicConstraintsKeepsProperties | src/objects/enterpriseca.rs:190-217 | a certificate without a Basic Constraints extension leaves the properties unchanged |
| Certificate.LastBasicConstraintsDecides | src/objects/enterpriseca.rs:190-217 | the last Basic Constraints extension alone decides both fields, and nothing else changes |
| Certificate.OnlyBasicConstraintsChange | src/objects/enterpriseca.rs:190-217 | the extension loop changes no property but the two Basic Constraints fields |
| Certificate.ApplyExtensionsKeepsConsistency | src/objects/enterpriseca.rs:199-214 | "has Basic Constraints" keeps agreeing with "positive path length" |
| Certificate.BasicConstraintsExamples | src/objects/enterpriseca.rs:199-214 | path length 0 or none gives none and 0; path length 3 gives Basic Constraints with length 3 |
| EnterpriseCAObject.EnterpriseCA.ApplyCertificateExtensions | src/objects/enterpriseca.rs:190-217 | the extension loop leaves the properties as the specification `ApplyExtensions` says and changes no other field |
| CaParse.DefaultRecord | src/objects/enterpriseca.rs:45-47 | a new object holds the default properties and registry data, empty lists, empty identifier and hosting computer, false flags and no container |
| CaParse.Register | src/objects/enterpriseca.rs:227-237 | unless the identifier is "SID", the distinguished name maps to the identifier and the identifier to "EnterpriseCA"; with "SID" nothing changes; no other key changes |
| CaParse.StepAttributesStopAtFailure | src/objects/enterpriseca.rs:121-122 | after a `whenCreated` error the remaining text attributes change nothing |
| CaParse.StepBinaryAttributesStopAtFailure | src/objects/enterpriseca.rs:155 | after the heuristic aborts the remaining binary attributes change nothing |
| CaParseProperties.StepAttributeFacts | src/objects/enterpriseca.rs:92-131 | one text attribute writes only its own field (name, description, host name, creation time, template list or deletion flag), and the other five are unchanged; only `whenCreated` can fail or change the creation time; only `certificateTemplates` changes the template list |
| CaParseProperties.StepBinaryAttributeFacts | src/objects/enterpriseca.rs:135-223 | only the descriptor can abort or change the ACEs, hosting computer and registry data; only the certificate changes Basic Constraints; only `objectGUID` changes the identifier |
| CaParseProperties.StepBinaryAttributeFrame | src/objects/enterpriseca.rs:135-223 | one binary attribute writes only the identifier, ACEs, hosting computer, registry data and certificate fields |
| CaParseProperties.DescriptorArmFrame | src/objects/enterpriseca.rs:142-177 | the descriptor arm writes only the ACEs, hosting computer, registry data and CA-security flag; every other field, the certificate fields and the identifier included, is unchanged |
| CaParseProperties.DescriptorArmPastEnd | src/objects/enterpriseca.rs:256-259 | the descriptor arm aborts on the DACL slice if and only if the DACL offset is non-zero and larger than the attribute's byte length |
| CaParseProperties.CertificateArmFrame | src/objects/enterpriseca.rs:178-221 | the certificate arm writes only the hash fields and the Basic Constraints fields; every other field, the ACEs, hosting computer and identifier included, is unchanged |
| CaParseProperties.CertificateStepFacts | src/objects/enterpriseca.rs:178-221 | the certificate arm stores the hash as thumbprint, name and one-element chain, decides Basic Constraints from the decoded extensions alone, and keeps the object invariant |
| CaParseProperties.ExtensionsSeeOnlyBasicConstraints | src/objects/enterpriseca.rs:190-217 | the extension loop's result depends on no property other than the two it writes |
| CaParseProperties.AttributesTouchOnlyTheirFields | src/objects/enterpriseca.rs:92-132 | the text-attribute loop changes only the name, description, host name, creation time, template list and deletion flag |
| CaParseProperties.BinaryAttributesTouchOnlyTheirFields | src/objects/enterpriseca.rs:135-224 | the binary-attribute loop changes only the identifier, ACEs, hosting computer, registry data and certificate fields |
| CaParseProperties.ParsedHeaderFields | src/objects/enterpriseca.rs:84-89 | whatever the outcome, domain and distinguished name are the upper-cased inputs, the domain SID is the input and the CA name is derived from the upper-cased distinguished name |
| CaParseProperties.TemplatesFromAttributes | src/objects/enterpriseca.rs:104-119 | a non-empty `certificateTemplates` value becomes the template list |
| CaParseProperties.TemplatesKeptFromAttributes | src/objects/enterpriseca.rs:104-107 | without a non-empty `certificateTemplates` value the template list is unchanged |
| CaParseProperties.ParsedTemplateList | src/objects/enterpriseca.rs:104-119 | after a successful parse the template list has the same length and order as the values, names them, and has type "CertTemplate" throughout |
| CaParseProperties.ParsedTemplateListUnchanged | src/objects/enterpriseca.rs:104-107 | an empty or missing `certificateTemplates` value leaves the list unchanged, whatever the outcome |
| CaParseProperties.AttributesWithoutDateNeverFail | src/objects/enterpriseca.rs:92-132 | without `whenCreated` the text-attribute loop cannot fail and keeps the creation time |
| CaParseProperties.CreationTimeFromAttributes | src/objects/enterpriseca.rs:121-126 | a decoded creation time is stored when positive and ignored otherwise |
| CaParseProperties.DateErrorFromAttributes | src/objects/enterpriseca.rs:121-122 | an undecodable creation time stops the loop with the decoder's error |
| CaParseProperties.ParsedCreationTime | src/objects/enterpriseca.rs:121-126 | after parse the creation time is the decoded epoch when positive and the previous value otherwise |
| CaParseProperties.ParsedDateError | src/objects/enterpriseca.rs:121-122 | an undecodable creation time makes parse return that error, with the identifier and hosting computer untouched and the lookup tables unchanged |
| CaParseProperties.CaSecurityFromBinaryAttributes | src/objects/enterpriseca.rs:142-177 | after the binary loop the descriptor's ACEs, hosting computer and wrapped CA security are recorded |
| CaParseProperties.ParsedCaSecurity | src/objects/enterpriseca.rs:153-176 | after a successful parse: hosting computer from the heuristic; ACEs from the descriptor; CA security data as decoded, collected if and only if non-empty, failure reason only when empty; property flag equal to the registry flag |
| CaParseProperties.BinaryAttributesWithoutDescriptorNeverFail | src/objects/enterpriseca.rs:135-224 | only `nTSecurityDescriptor` can abort the binary-attribute loop |
| CaParseProperties.HeuristicAbortFromBinaryAttributes | src/objects/enterpriseca.rs:155 | an aborting heuristic aborts the binary-attribute loop with its cause |
| CaParseProperties.ParsedHeuristicAbort | src/objects/enterpriseca.rs:155 | when the heuristic aborts, parse does not complete and the lookup tables are unchanged |
| CaParseProperties.NoCertificateKeepsBasicConstraints | src/objects/enterpriseca.rs:135-224 | binary attributes other than the certificate keep the Basic Constraints fields |
| CaParseProperties.CertificateFromBinaryAttributes | src/objects/enterpriseca.rs:178-221 | after the binary loop the certificate's hash and its Basic Constraints decision are recorded |
| CaParseProperties.ParsedCertificateHash | src/objects/enterpriseca.rs:180-183 | thumbprint, certificate name and the single chain entry are the same SHA-1 of the certificate |
| CaParseProperties.ParsedBasicConstraintsDecided | src/objects/enterpriseca.rs:190-214 | the last Basic Constraints extension decides: recorded with length n if and only if n is present and positive, otherwise none and 0 |
| CaParseProperties.BasicConstraintsKeptFromBinaryAttributes | src/objects/enterpriseca.rs:186-220 | a certificate that does not decode or has no Basic Constraints extension keeps both fields |
| CaParseProperties.ParsedBasicConstraintsKept | src/objects/enterpriseca.rs:186-220 | after parse, with no certificate, an undecodable one or one without the extension, both fields keep their previous values |
| CaParseProperties.IdentifierFromBinaryAttributes | src/objects/enterpriseca.rs:137-141 | the identifier is the decoded `objectGUID` |
| CaParseProperties.IdentifierKeptFromBinaryAttributes | src/objects/enterpriseca.rs:135-224 | without `objectGUID` the identifier is unchanged |
| CaParseProperties.ParsedRegistersObject | src/objects/enterpriseca.rs:227-237 | after a successful parse the upper-cased distinguished name maps to the decoded GUID and the GUID to "EnterpriseCA" (tables unchanged for "SID"), and no other key changes |
| CaParseProperties.ParsedWithoutGuidRegistersEmptyIdentifier | src/objects/enterpriseca.rs:227-237 | a fresh object parsed without `objectGUID` is registered under the empty identifier |
| CaParseProperties.BinaryAttributesKeepConsistency | src/objects/enterpriseca.rs:135-224 | the binary-attribute loop keeps the object invariant |
| CaParseProperties.ParsePreservesConsistency | src/objects/enterpriseca.rs:60-242 | parse keeps the object invariant (both ACL-protected flags agree; Basic Constraints exactly with a positive length), whatever the outcome |
| CaParseProperties.DefaultRecordFacts | src/objects/enterpriseca.rs:385-456 | a new object satisfies the invariant, has creation time -1, and its CA security says collected while its property flag says not collected |
| EnterpriseCAObject.EnterpriseCA.constructor | src/objects/enterpriseca.rs:45-47 | `EnterpriseCA::new` gives the default record, which satisfies the invariant |
| EnterpriseCAObject.EnterpriseCA.Parse | src/objects/enterpriseca.rs:60-242 | the new object, the new lookup tables and the outcome are those of `Parsed` on the previous state; the object invariant is kept |
| EnterpriseCAObject.EnterpriseCA.SetHeader | src/objects/enterpriseca.rs:84-89 | the header fields are set as `WithHeader` says, and nothing else changes |
| EnterpriseCAObject.EnterpriseCA.ApplyAttributes | src/objects/enterpriseca.rs:92-132 | the text-attribute loop ends in the state and outcome of `StepAttributes`, stopping at the first error |
| EnterpriseCAObject.EnterpriseCA.ApplyBinaryAttributes | src/objects/enterpriseca.rs:135-224 | the binary-attribute loop ends in the state and outcome of `StepBinaryAttributes`, stopping at the first abort |
| EnterpriseCAObject.EnterpriseCA.ApplyAttribute | src/objects/enterpriseca.rs:93-131 | one arm of the text-attribute match, as `StepAttribute` |
| EnterpriseCAObject.EnterpriseCA.ApplyBinaryAttribute | src/objects/enterpriseca.rs:136-223 | one arm of the binary-attribute match, as `StepBinaryAttribute` |
| EnterpriseCAObject.LookupTables.Register | src/objects/enterpriseca.rs:227-237 | the two inserts update the maps as `CaParse.Register` says |
| EnterpriseCAObject.EnterpriseCA.SetIsAclProtected | src/objects/enterpriseca.rs:335-338 | both copies of the ACL-protected flag take the new value, nothing else changes, and the invariant is kept |
| EnterpriseCAObject.EnterpriseCA.SetAces | src/objects/enterpriseca.rs:339-341 | the ACE list is replaced and nothing else changes |
| EnterpriseCAObject.EnterpriseCA.SetContainedBy | src/objects/enterpriseca.rs:351-353 | the container is replaced and nothing else changes |

## Left out

- The decoders in `crate::enums` are not part of this model. They are `SecurityDescriptor::parse`, `Acl::parse`, `AceFormat::get_sid`, `AceFormat::get_mask`, `sid_maker`, `decode_guid_le`, `parse_ntsecuritydescriptor` and `parse_ca_security`. Their results are the fields of `Decoders`. The heuristic sees their output as a `DescriptorView`, whose length is that of the attribute's bytes.
- Four other foreign calls are not part of this model either: `get_name_from_full_distinguishedname`, `string_to_epoch`, `calculate_sha1`, and `X509Certificate::from_der` with its `parsed_extension`. They are also fields of `Decoders`. A certificate is the list of its decoded extensions.
- `parse_ntsecuritydescriptor` also receives the object itself, both attribute maps and the object kind. The model's decoder sees only the descriptor bytes and the domain, so an ACE list that depends on the other attributes of the entry is not modelled, nor is any change the decoder makes to the object beyond the returned ACE list.
- Common.ToUpper: models `to_uppercase` on ASCII letters only. Unicode case mapping, including mappings that change the length, is not modelled.
- EnterpriseCAObject.EnterpriseCA.Parse: requires every indexed attribute (`name`, `description`, `dNSHostName`, `whenCreated`, `objectGUID`, `nTSecurityDescriptor`, `cACertificate`) to carry at least one value. The Rust code indexes `value[0]` and panics on an empty list.
- The lemmas that single out one attribute require distinct attribute names. A `HashMap` guarantees this, while the sequence model does not by itself.
- `MANAGE_CERTIFICATES` is defined in `crate::enums`, which is not part of this model. Its value is taken as 0x2, the Manage Certificates right of a certification authority. No lemma depends on the value.
- `whencreated` is an `i64` in Rust and an unbounded integer here. The parser only copies a value that `string_to_epoch` produced, so no arithmetic can overflow.
- The following are not modelled:
  - logging (`debug!`, `trace!`, `info!`, `error!`), the coloured output and `to_json` with its serde attributes, since they are output only;
  - the `enabled_cert_templates` accessors and the plain `LdapObject` getters, which return a field, and `get_haslaps`, which returns `false`;
  - the getters that `panic!` because an Enterprise CA has no such data;
  - the setters that do nothing: `set_spntargets`, `set_allowed_to_delegate`, `set_links` and `set_child_objects`.
