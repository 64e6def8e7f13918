/** What a caller asked for, raised to what the certificate's CT policy demands. */
module Requests {
  import opened Logs

  /** Which of the four base log lists a request is served from. */
  datatype ListChoice = TestTLS | UsableBIMI | UsableTLS | CrtshActive

  /** What the request stage reads from a certificate; times are in seconds. */
  datatype CertFacts = CertFacts(unknownEkus: seq<string>, notBefore: int, notAfter: int)

  const HALF_YEAR := 180 * 24 * 3600

  ghost predicate IsMark(cert: CertFacts, markEku: string) {
    markEku in cert.unknownEkus
  }

  /** A request that has to meet the TLS policy. */
  ghost predicate TlsPolicy(sr: Request, cert: CertFacts, markEku: string) {
    sr.policyCompliant && !IsMark(cert, markEku)
  }

  /** The least number of SCTs under the TLS policy: one more for certificates valid over 180 days. */
  function PolicySCTs(cert: CertFacts): int {
    if cert.notAfter - cert.notBefore > HALF_YEAR then 3 else 2
  }

  /** What every request meets once its requirements have been determined. */
  ghost predicate Meets(sr: Request, cert: CertFacts, markEku: string) {
    && 1 <= sr.operators <= sr.scts
    && (TlsPolicy(sr, cert, markEku) ==> sr.operators >= 2 && sr.scts >= PolicySCTs(cert) && sr.preferStatic)
  }

  /** `b` asks for everything that `a` asks for, about the same kind of logs. */
  ghost predicate AtLeast(a: Request, b: Request) {
    && b.policyCompliant == a.policyCompliant && b.testLogs == a.testLogs && b.requireRFC6962 == a.requireRFC6962
    && b.operators >= a.operators && b.scts >= a.scts && (a.preferStatic ==> b.preferStatic)
  }

  /** The least request that asks for all of `a` and meets the policy. */
  ghost predicate IsRaised(a: Request, b: Request, cert: CertFacts, markEku: string) {
    && AtLeast(a, b) && Meets(b, cert, markEku)
    && forall c | AtLeast(a, c) && Meets(c, cert, markEku) :: AtLeast(b, c)
  }

  lemma RaisedIsUnique(a: Request, b: Request, c: Request, cert: CertFacts, markEku: string)
    requires IsRaised(a, b, cert, markEku) && IsRaised(a, c, cert, markEku)
    ensures b == c
  {
    assert AtLeast(b, c) && AtLeast(c, b);
  }

  ghost function AtLeastOne(n: int): int { if n < 1 then 1 else n }

  /**
    The raised request in numbers. Under the TLS policy: two operators; two SCTs, or three for a certificate
    valid over 180 days; a Static SCT preferred. Otherwise one of each; and never fewer SCTs than operators.
   */
  lemma RaisedInNumbers(a: Request, b: Request, cert: CertFacts, markEku: string)
    requires IsRaised(a, b, cert, markEku)
    ensures var tls, long := a.policyCompliant && markEku !in cert.unknownEkus,
                             cert.notAfter - cert.notBefore > 180 * 24 * 3600;
            && b.operators == (if tls && a.operators < 2 then 2 else AtLeastOne(a.operators))
            && b.scts >= b.operators && b.scts >= a.scts
            && (tls ==> b.scts >= if long then 3 else 2)
            && (b.scts == b.operators || b.scts == a.scts || (tls && b.scts == if long then 3 else 2))
            && b.preferStatic == (a.preferStatic || tls)
            && b.requireRFC6962 == a.requireRFC6962
  {
    var tls := TlsPolicy(a, cert, markEku);
    var operators := if tls && a.operators < 2 then 2 else AtLeastOne(a.operators);
    var needed := if !tls then 1 else if cert.notAfter - cert.notBefore > 180 * 24 * 3600 then 3 else 2;
    var scts := Largest(a.scts, needed, operators);
    var least := a.(operators := operators, scts := scts, preferStatic := a.preferStatic || tls);
    assert AtLeast(a, least) && Meets(least, cert, markEku);
    assert AtLeast(b, least);
  }

  function Largest(a: int, b: int, c: int): (m: int)
    ensures m >= a && m >= b && m >= c && (m == a || m == b || m == c)
  {
    if a >= b && a >= c then a else if b >= c then b else c
  }

  /** Determining the requirements again changes nothing. */
  lemma RaisingIsIdempotent(a: Request, b: Request, c: Request, cert: CertFacts, markEku: string)
    requires IsRaised(a, b, cert, markEku) && IsRaised(b, c, cert, markEku)
    ensures b == c
  {
    assert IsRaised(b, b, cert, markEku);
    RaisedIsUnique(b, b, c, cert, markEku);
  }

  class SubmissionRequest {
    var policyCompliant: bool
    var testLogs: bool
    var operators: int
    var scts: int
    var requireRFC6962: bool
    var preferStatic: bool

    function Value(): Request
      reads this
    {
      Request(policyCompliant, testLogs, operators, scts, requireRFC6962, preferStatic)
    }

    constructor ()
      ensures Value() == Request(true, false, 1, 1, false, false)
    {
      policyCompliant, testLogs, operators, scts := true, false, 1, 1;
      requireRFC6962, preferStatic := false, false;
    }

    constructor Received(sr: Request)
      ensures Value() == sr
    {
      policyCompliant, testLogs, operators, scts := sr.policyCompliant, sr.testLogs, sr.operators, sr.scts;
      requireRFC6962, preferStatic := sr.requireRFC6962, sr.preferStatic;
    }

    /** Choose the base log list, and raise the fields of the request as far as needed and no further. */
    method DetermineSubmissionRequirements(cert: CertFacts, markEku: string) returns (list: ListChoice)
      modifies this
      ensures IsRaised(old(Value()), Value(), cert, markEku)
      ensures policyCompliant && markEku !in cert.unknownEkus ==>
                operators >= 2 && scts >= 2 && (cert.notAfter - cert.notBefore > 180 * 24 * 3600 ==> scts >= 3)
      ensures list.TestTLS? <==> testLogs
      ensures list.CrtshActive? <==> !testLogs && !policyCompliant
      ensures list.UsableTLS? <==> !testLogs && policyCompliant && markEku !in cert.unknownEkus
    {
      var isMark := false;
      for i := 0 to |cert.unknownEkus|
        invariant !isMark && markEku !in cert.unknownEkus[..i]
      {
        if cert.unknownEkus[i] == markEku {
          isMark := true;
          break;
        }
      }
      assert cert.unknownEkus[..|cert.unknownEkus|] == cert.unknownEkus;

      if testLogs {
        list := TestTLS;
      } else if policyCompliant {
        list := if isMark then UsableBIMI else UsableTLS;
      } else {
        list := CrtshActive;
      }

      if policyCompliant && !isMark {
        preferStatic := true;
        if operators < 2 {
          operators := 2;
        }
        var needed := 2;
        if cert.notAfter - cert.notBefore > HALF_YEAR {
          needed := needed + 1;
        }
        if scts < needed {
          scts := needed;
        }
      }

      if operators < 1 {
        operators := 1;
      }
      if scts < 1 {
        scts := 1;
      }
      if scts < operators {
        scts := operators;
      }
    }
  }
}
