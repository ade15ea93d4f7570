/** The Basic Constraints decision taken over the extensions of the CA's
    certificate (`cACertificate`). The certificate extension is the one of
    section 4.2.1.9 of RFC 5280, object identifier 2.5.29.19. DER decoding is
    not part of this model: a certificate is the list of its extensions, each
    with its object identifier and what the X.509 decoder made of it. */
module Certificate {
  import opened Common
  import opened CaRecords

  /** 2.5.29.19, id-ce-basicConstraints. */
  const BASIC_CONSTRAINTS_OID: seq<nat> := [2, 5, 29, 19]

  /** What the X.509 decoder makes of one extension's value. */
  datatype ParsedExtension =
    | BasicConstraints(ca: bool, pathLenConstraint: Option<u32>)
    | OtherExtension

  datatype Extension = Extension(oid: seq<nat>, parsed: ParsedExtension)

  /** The extension is a decoded Basic Constraints extension. */
  predicate IsBasicConstraints(e: Extension) {
    e.oid == BASIC_CONSTRAINTS_OID && e.parsed.BasicConstraints?
  }

  /** Basic Constraints are recorded only for a positive path length
      constraint; otherwise "none" and length 0. */
  function BasicConstraintsDecision(pathLen: Option<u32>): (r: (bool, u32))
    ensures r.0 <==> pathLen.Some? && pathLen.value > 0
    ensures r.0 ==> r.1 == pathLen.value
    ensures !r.0 ==> r.1 == 0
  {
    match pathLen
    case Some(n) => if n > 0 then (true, n) else (false, 0)
    case None => (false, 0)
  }

  /** One pass of the extension loop. */
  function ApplyExtension(p: Properties, e: Extension): Properties {
    if IsBasicConstraints(e) then
      var (has, len) := BasicConstraintsDecision(e.parsed.pathLenConstraint);
      p.(hasbasicconstraints := has, basicconstraintpathlength := len)
    else p
  }

  /** The extension loop, in the certificate's order. */
  function ApplyExtensions(p: Properties, exts: seq<Extension>): Properties
    decreases |exts|
  {
    if exts == [] then p
    else ApplyExtension(ApplyExtensions(p, exts[..|exts| - 1]), exts[|exts| - 1])
  }

  /** A certificate without a Basic Constraints extension keeps the
      properties as they were. */
  lemma {:induction false} NoBasicConstraintsKeepsProperties(p: Properties, exts: seq<Extension>)
    requires forall i :: 0 <= i < |exts| ==> !IsBasicConstraints(exts[i])
    ensures ApplyExtensions(p, exts) == p
    decreases |exts|
  {
    if exts != [] {
      NoBasicConstraintsKeepsProperties(p, exts[..|exts| - 1]);
    }
  }

  /** The last Basic Constraints extension decides both fields, and nothing
      else changes. */
  lemma {:induction false} LastBasicConstraintsDecides(p: Properties, exts: seq<Extension>, k: nat)
    requires k < |exts| && IsBasicConstraints(exts[k])
    requires forall j :: k < j < |exts| ==> !IsBasicConstraints(exts[j])
    ensures var d := BasicConstraintsDecision(exts[k].parsed.pathLenConstraint);
            ApplyExtensions(p, exts) == p.(hasbasicconstraints := d.0, basicconstraintpathlength := d.1)
    decreases |exts|
  {
    var d := BasicConstraintsDecision(exts[k].parsed.pathLenConstraint);
    var front := exts[..|exts| - 1];
    if k == |exts| - 1 {
      var q := ApplyExtensions(p, front);
      OnlyBasicConstraintsChange(p, front);
      assert q == p.(hasbasicconstraints := q.hasbasicconstraints, basicconstraintpathlength := q.basicconstraintpathlength);
    } else {
      LastBasicConstraintsDecides(p, front, k);
      assert !IsBasicConstraints(exts[|exts| - 1]);
    }
  }

  /** The extension loop changes the two Basic Constraints fields only. */
  lemma {:induction false} OnlyBasicConstraintsChange(p: Properties, exts: seq<Extension>)
    ensures var q := ApplyExtensions(p, exts);
            q == p.(hasbasicconstraints := q.hasbasicconstraints, basicconstraintpathlength := q.basicconstraintpathlength)
    decreases |exts|
  {
    if exts != [] {
      OnlyBasicConstraintsChange(p, exts[..|exts| - 1]);
    }
  }

  /** Whatever the certificate holds, "has Basic Constraints" and "positive
      path length" keep agreeing. */
  lemma {:induction false} ApplyExtensionsKeepsConsistency(p: Properties, exts: seq<Extension>)
    requires BasicConstraintsConsistent(p)
    ensures BasicConstraintsConsistent(ApplyExtensions(p, exts))
    decreases |exts|
  {
    if exts != [] {
      ApplyExtensionsKeepsConsistency(p, exts[..|exts| - 1]);
    }
  }

  /** Path length 0 or extension absent: none recorded; path length 3:
      recorded with length 3. */
  lemma BasicConstraintsExamples()
    ensures BasicConstraintsDecision(Some(0)) == (false, 0)
    ensures BasicConstraintsDecision(None) == (false, 0)
    ensures BasicConstraintsDecision(Some(3)) == (true, 3)
  {
  }
}
