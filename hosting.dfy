/** The hosting-computer heuristic of an Enterprise CA: the first access-allowed
    ACE of the CA's DACL, in stored order, that grants Manage Certificates to a
    principal outside the well-known administrator groups names the computer
    that hosts the CA service.

    The binary decoders (security-descriptor header, ACL, ACE, SID) are not part
    of this model; what they produce for one descriptor is a `DescriptorView`. */
module Hosting {
  import opened Common
  import opened Rights

  /** ACE type tag of an access-allowed ACE. */
  const ACCESS_ALLOWED_ACE_TYPE: bv8 := 0x00

  /** The value returned when no ACE qualifies. */
  const NOT_FOUND: string := "Not found"

  /** Relative identifiers that are never taken as the hosting computer:
      Administrators, Enterprise Admins and Domain Admins. */
  const BLACKLIST: seq<string> := ["-544", "-519", "-512"]

  /** One decoded ACE of the DACL: its type tag, its trustee SID as rendered
      by `sid_maker` (None when `AceFormat::get_sid` finds none) and its
      rights mask (None when `AceFormat::get_mask` finds none). */
  datatype AceRecord = AceRecord(aceType: bv8, trustee: Option<string>, mask: Option<bv32>)

  /** What the decoders make of one `nTSecurityDescriptor` value:
      its length in bytes, the DACL offset from the descriptor header (None
      when `SecurityDescriptor::parse` fails) and the ACEs of the ACL found
      at that offset (None when `Acl::parse` fails). */
  datatype DescriptorView = DescriptorView(length: nat, offsetDacl: Option<u32>, dacl: Option<seq<AceRecord>>)

  /** The ways in which the heuristic aborts the process (`unwrap` on a
      failed decode, a slice starting past the end of the buffer). */
  datatype Panic = DescriptorUnparsable | DaclOffsetPastEnd | TrusteeUnreadable

  /** What a scan of the ACEs comes to. */
  datatype ScanOutcome = Match(sid: string) | NoMatch | Aborted

  predicate Blacklisted(sid: string) {
    exists b :: b in BLACKLIST && EndsWith(sid, b)
  }

  /** The ACE names a hosting-computer candidate. */
  predicate Qualifies(a: AceRecord) {
    && a.aceType == ACCESS_ALLOWED_ACE_TYPE
    && a.trustee.Some?
    && a.mask.Some?
    && Contains(a.mask.value, MANAGE_CERTIFICATES)
    && !Blacklisted(a.trustee.value)
  }

  /** The ACE makes the scan abort: an access-allowed ACE without a readable
      trustee (its SID is read before its mask). */
  predicate Aborts(a: AceRecord) {
    a.aceType == ACCESS_ALLOWED_ACE_TYPE && a.trustee.None?
  }

  /** The ACE ends the scan, one way or the other. */
  predicate Decisive(a: AceRecord) {
    Qualifies(a) || Aborts(a)
  }

  /** The scan of the ACE loop, front to back. */
  function Scan(aces: seq<AceRecord>): ScanOutcome {
    if aces == [] then NoMatch
    else
      var a := aces[0];
      if a.aceType != ACCESS_ALLOWED_ACE_TYPE then Scan(aces[1..])
      else if a.trustee.None? then Aborted
      else if a.mask.None? then Scan(aces[1..])
      else if Contains(a.mask.value, MANAGE_CERTIFICATES) && !Blacklisted(a.trustee.value) then Match(a.trustee.value)
      else Scan(aces[1..])
  }

  /** The whole heuristic on one decoded descriptor. */
  function HostingComputerOf(view: DescriptorView): Result<string, Panic> {
    match view.offsetDacl
    case None => Failure(DescriptorUnparsable)
    case Some(offset) =>
      if offset == 0 then Success(NOT_FOUND)
      else if offset > view.length then Failure(DaclOffsetPastEnd)
      else
        match view.dacl
        case None => Success(NOT_FOUND)
        case Some(aces) =>
          match Scan(aces)
          case Match(sid) => Success(sid)
          case NoMatch => Success(NOT_FOUND)
          case Aborted => Failure(TrusteeUnreadable)
  }

  /** `k` is the first ACE that ends the scan. */
  ghost predicate IsFirstDecisive(aces: seq<AceRecord>, k: int) {
    && 0 <= k < |aces|
    && Decisive(aces[k])
    && forall j :: 0 <= j < k ==> !Decisive(aces[j])
  }

  /** The outcome an ACE that ends the scan gives. */
  function Verdict(a: AceRecord): ScanOutcome
    requires Decisive(a)
  {
    if Qualifies(a) then Match(a.trustee.value) else Aborted
  }

  /** First match wins: the first ACE that qualifies (or aborts) decides the
      scan, whatever follows it. */
  lemma {:induction false} ScanStopsAtFirstDecisive(aces: seq<AceRecord>, k: int)
    requires IsFirstDecisive(aces, k)
    ensures Scan(aces) == Verdict(aces[k])
  {
    if k > 0 {
      assert !Decisive(aces[0]);
      assert IsFirstDecisive(aces[1..], k - 1) by {
        forall j | 0 <= j < k - 1 ensures !Decisive(aces[1..][j]) {
          assert aces[1..][j] == aces[j + 1];
        }
      }
      ScanStopsAtFirstDecisive(aces[1..], k - 1);
    }
  }

  /** The scan finds nothing exactly when no ACE qualifies or aborts. */
  lemma {:induction false} ScanNoMatchIff(aces: seq<AceRecord>)
    ensures Scan(aces) == NoMatch <==> forall j :: 0 <= j < |aces| ==> !Decisive(aces[j])
  {
    if aces != [] {
      ScanNoMatchIff(aces[1..]);
      assert forall j :: 1 <= j < |aces| ==> aces[j] == aces[1..][j - 1];
    }
  }

  /** A match is the trustee of the first qualifying ACE, and nothing before
      it qualified or aborted. */
  lemma {:induction false} ScanMatchIsFirstQualifying(aces: seq<AceRecord>, sid: string)
    requires Scan(aces) == Match(sid)
    ensures exists k :: IsFirstDecisive(aces, k) && Qualifies(aces[k]) && aces[k].trustee == Some(sid)
  {
    if Decisive(aces[0]) {
      assert IsFirstDecisive(aces, 0);
    } else {
      ScanMatchIsFirstQualifying(aces[1..], sid);
      var k :| IsFirstDecisive(aces[1..], k) && Qualifies(aces[1..][k]) && aces[1..][k].trustee == Some(sid);
      assert IsFirstDecisive(aces, k + 1) by {
        forall j | 1 <= j < k + 1 ensures !Decisive(aces[j]) {
          assert aces[j] == aces[1..][j - 1];
        }
      }
    }
  }

  /** No blacklisted result: a matched SID never ends with -544, -519 or -512. */
  lemma ScanMatchNotBlacklisted(aces: seq<AceRecord>, sid: string)
    requires Scan(aces) == Match(sid)
    ensures !EndsWith(sid, "-544") && !EndsWith(sid, "-519") && !EndsWith(sid, "-512")
  {
    ScanMatchIsFirstQualifying(aces, sid);
    var k :| IsFirstDecisive(aces, k) && Qualifies(aces[k]) && aces[k].trustee == Some(sid);
    assert BLACKLIST[0] == "-544" && BLACKLIST[1] == "-519" && BLACKLIST[2] == "-512";
  }

  /** ACEs after the deciding one have no influence on the result. */
  lemma {:induction false} ScanIgnoresLaterAces(aces: seq<AceRecord>, later: seq<AceRecord>)
    requires Scan(aces) != NoMatch
    ensures Scan(aces + later) == Scan(aces)
  {
    assert aces != [];
    assert (aces + later)[0] == aces[0];
    assert (aces + later)[1..] == aces[1..] + later;
    if !Decisive(aces[0]) {
      ScanIgnoresLaterAces(aces[1..], later);
    }
  }

  /** A leading run of ACEs that neither qualify nor abort is passed over. */
  lemma {:induction false} ScanSkipsLeadingUndecisive(skipped: seq<AceRecord>, rest: seq<AceRecord>)
    requires forall j :: 0 <= j < |skipped| ==> !Decisive(skipped[j])
    ensures Scan(skipped + rest) == Scan(rest)
  {
    if skipped != [] {
      assert (skipped + rest)[0] == skipped[0];
      assert (skipped + rest)[1..] == skipped[1..] + rest;
      assert forall j :: 0 <= j < |skipped| - 1 ==> skipped[1..][j] == skipped[j + 1];
      ScanSkipsLeadingUndecisive(skipped[1..], rest);
    } else {
      assert skipped + rest == rest;
    }
  }

  /** A run of ACEs that neither qualify nor abort (other types, unreadable
      masks, masks without the right, blacklisted grantees) is skipped,
      wherever it stands. */
  lemma ScanSkipsUndecisive(pre: seq<AceRecord>, skipped: seq<AceRecord>, rest: seq<AceRecord>)
    requires forall j :: 0 <= j < |skipped| ==> !Decisive(skipped[j])
    ensures Scan(pre + skipped + rest) == Scan(pre + rest)
  {
    assert pre + skipped + rest == pre + (skipped + rest);
    if Scan(pre) != NoMatch {
      ScanIgnoresLaterAces(pre, skipped + rest);
      ScanIgnoresLaterAces(pre, rest);
    } else {
      ScanNoMatchIff(pre);
      ScanSkipsLeadingUndecisive(pre, rest);
      var front := pre + skipped;
      assert forall j :: 0 <= j < |front| ==> !Decisive(front[j]) by {
        forall j | 0 <= j < |front| ensures !Decisive(front[j]) {
          if j < |pre| { assert front[j] == pre[j]; } else { assert front[j] == skipped[j - |pre|]; }
        }
      }
      ScanSkipsLeadingUndecisive(front, rest);
    }
  }

  /** A blacklisted grantee is skipped whatever its position and mask. */
  lemma BlacklistedGranteeSkipped(pre: seq<AceRecord>, a: AceRecord, rest: seq<AceRecord>)
    requires a.trustee.Some? && Blacklisted(a.trustee.value)
    ensures Scan(pre + [a] + rest) == Scan(pre + rest)
  {
    ScanSkipsUndecisive(pre, [a], rest);
  }

  /** Only access-allowed ACEs count: the ACEs of every other type can be
      dropped without changing the result. */
  function AllowedOnly(aces: seq<AceRecord>): (r: seq<AceRecord>)
    ensures forall j :: 0 <= j < |r| ==> r[j].aceType == ACCESS_ALLOWED_ACE_TYPE
    ensures |r| <= |aces|
  {
    if aces == [] then []
    else if aces[0].aceType == ACCESS_ALLOWED_ACE_TYPE then [aces[0]] + AllowedOnly(aces[1..])
    else AllowedOnly(aces[1..])
  }

  lemma {:induction false} ScanSeesOnlyAllowedAces(aces: seq<AceRecord>)
    ensures Scan(aces) == Scan(AllowedOnly(aces))
  {
    if aces != [] {
      ScanSeesOnlyAllowedAces(aces[1..]);
      if aces[0].aceType == ACCESS_ALLOWED_ACE_TYPE {
        var r := [aces[0]] + AllowedOnly(aces[1..]);
        assert r[0] == aces[0] && r[1..] == AllowedOnly(aces[1..]);
      }
    }
  }

  /** The three ways to "Not found": no DACL offset, an ACL that does not
      parse, or no qualifying ACE. */
  lemma NotFoundCases(view: DescriptorView)
    requires view.offsetDacl.Some?
    requires view.offsetDacl.value == 0
          || (view.offsetDacl.value <= view.length && view.dacl.None?)
          || (view.offsetDacl.value <= view.length && view.dacl.Some?
              && forall j :: 0 <= j < |view.dacl.value| ==> !Decisive(view.dacl.value[j]))
    ensures HostingComputerOf(view) == Success(NOT_FOUND)
  {
    if view.offsetDacl.value != 0 && view.dacl.Some? {
      ScanNoMatchIff(view.dacl.value);
    }
  }

  /** A found hosting computer is the trustee of the first qualifying ACE of
      the DACL, and is not blacklisted. */
  lemma HostingComputerFound(view: DescriptorView, sid: string)
    requires HostingComputerOf(view) == Success(sid) && sid != NOT_FOUND
    ensures view.offsetDacl.Some? && view.offsetDacl.value != 0 && view.dacl.Some?
    ensures exists k :: IsFirstDecisive(view.dacl.value, k) && Qualifies(view.dacl.value[k])
                        && view.dacl.value[k].trustee == Some(sid)
    ensures !EndsWith(sid, "-544") && !EndsWith(sid, "-519") && !EndsWith(sid, "-512")
  {
    ScanMatchIsFirstQualifying(view.dacl.value, sid);
    ScanMatchNotBlacklisted(view.dacl.value, sid);
  }

  /** The heuristic aborts exactly when the header does not parse, the DACL
      offset lies past the end of the buffer, or an access-allowed ACE without
      a readable trustee comes before any qualifying ACE. */
  lemma HostingComputerPanics(view: DescriptorView)
    ensures HostingComputerOf(view).Failure? <==>
      || view.offsetDacl.None?
      || (view.offsetDacl.value != 0 && view.offsetDacl.value > view.length)
      || (view.offsetDacl.value != 0 && view.dacl.Some? && Scan(view.dacl.value) == Aborted)
  {
  }

  /** Two ACEs granting Manage Certificates, one to Domain Admins (-512) and
      one to the machine account (-1105): the machine account is found in
      either order. */
  lemma BlacklistOrderExample()
    ensures var admins := AceRecord(ACCESS_ALLOWED_ACE_TYPE, Some("S-1-5-21-1-2-3-512"), Some(0xFFFF_FFFF));
            var machine := AceRecord(ACCESS_ALLOWED_ACE_TYPE, Some("S-1-5-21-1-2-3-1105"), Some(MANAGE_CERTIFICATES));
            && Scan([machine, admins]) == Match("S-1-5-21-1-2-3-1105")
            && Scan([admins, machine]) == Match("S-1-5-21-1-2-3-1105")
  {
    var admins := AceRecord(ACCESS_ALLOWED_ACE_TYPE, Some("S-1-5-21-1-2-3-512"), Some(0xFFFF_FFFF));
    var machine := AceRecord(ACCESS_ALLOWED_ACE_TYPE, Some("S-1-5-21-1-2-3-1105"), Some(MANAGE_CERTIFICATES));
    assert EndsWith("S-1-5-21-1-2-3-512", "-512");
    assert Blacklisted("S-1-5-21-1-2-3-512");
    assert !Blacklisted("S-1-5-21-1-2-3-1105") by {
      var s := "S-1-5-21-1-2-3-1105";
      assert s[|s| - 4..] == "1105";
      forall b | b in BLACKLIST ensures !EndsWith(s, b) {
        assert b[0] == '-' && |b| == 4;
        assert s[|s| - 4] == '1';
      }
    }
    assert [admins, machine][1..] == [machine];
    assert [machine, admins][1..] == [admins];
    assert [machine][1..] == [];
  }

  /** When every Manage Certificates grantee is blacklisted, nothing is found. */
  lemma AllGranteesBlacklisted(aces: seq<AceRecord>)
    requires forall j :: 0 <= j < |aces| && aces[j].aceType == ACCESS_ALLOWED_ACE_TYPE ==> aces[j].trustee.Some?
    requires forall j :: 0 <= j < |aces| && aces[j].aceType == ACCESS_ALLOWED_ACE_TYPE
               && aces[j].mask.Some? && Contains(aces[j].mask.value, MANAGE_CERTIFICATES)
               ==> Blacklisted(aces[j].trustee.value)
    ensures Scan(aces) == NoMatch
  {
    ScanNoMatchIff(aces);
  }
}
