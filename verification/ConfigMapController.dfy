/** The CA bundle reconciler: resets two gauge vectors, then writes them from the certificates of the bundle. */
module ConfigMapController {
  import opened Options
  import opened Texts
  import opened Aggregator

  /** A parsed certificate: its subject, and the end of its validity in seconds. */
  datatype Certificate = Certificate(subject: string, notAfter: int)

  /** What validating the bundle yields: its certificates, or an error with a message. */
  datatype Validation = Parsed(certs: seq<Certificate>) | Invalid(message: string)

  datatype Read = NotFound | GetFailed | Found(bundle: Validation)

  predicate IsParseFailure(v: Validation) {
    v.Invalid? && Contains(v.message, "failed parsing certificate")
  }

  lemma ParseFailureInWords(v: Validation)
    ensures IsParseFailure(v) <==> v.Invalid? && exists i :: OccursAt(v.message, "failed parsing certificate", i)
  {
    if v.Invalid? {
      if i :| OccursAt(v.message, "failed parsing certificate", i) {
        assert 0 <= i <= |v.message|;
      }
    }
  }

  ghost function Expiries(clusterId: string, certs: seq<Certificate>): map<(string, string), int> {
    if certs == [] then map[]
    else
      var last := certs[|certs| - 1];
      Expiries(clusterId, certs[..|certs| - 1])[(clusterId, last.subject) := last.notAfter]
  }

  /** Certificate i is the last one with its subject. */
  ghost predicate IsLastOf(certs: seq<Certificate>, i: nat) {
    i < |certs| && forall j :: i < j < |certs| ==> certs[j].subject != certs[i].subject
  }

  /** The expiry vector has one series per subject, with the expiry of the last certificate of that subject. */
  lemma {:induction false} LastCertificateWins(clusterId: string, certs: seq<Certificate>)
    ensures forall k :: k in Expiries(clusterId, certs) <==>
                          k.0 == clusterId && exists i :: 0 <= i < |certs| && certs[i].subject == k.1
    ensures forall i: nat :: IsLastOf(certs, i) ==>
                               Expiries(clusterId, certs)[(clusterId, certs[i].subject)] == certs[i].notAfter
  {
    if certs != [] {
      var n := |certs| - 1;
      var shorter := certs[..n];
      LastCertificateWins(clusterId, shorter);
      assert certs == shorter + [certs[n]];
      forall i: nat | IsLastOf(certs, i) && i < n
        ensures Expiries(clusterId, certs)[(clusterId, certs[i].subject)] == certs[i].notAfter
      {
        assert IsLastOf(shorter, i) && shorter[i] == certs[i];
      }
    }
  }

  /** The same, in terms of the list alone. */
  lemma LastOfEachSubject(clusterId: string, certs: seq<Certificate>)
    ensures forall k :: k in Expiries(clusterId, certs) <==>
                          k.0 == clusterId && exists i :: 0 <= i < |certs| && certs[i].subject == k.1
    ensures forall i :: 0 <= i < |certs| && (forall j :: i < j < |certs| ==> certs[j].subject != certs[i].subject) ==>
                          Expiries(clusterId, certs)[(clusterId, certs[i].subject)] == certs[i].notAfter
  {
    LastCertificateWins(clusterId, certs);
    forall i | 0 <= i < |certs| && (forall j :: i < j < |certs| ==> certs[j].subject != certs[i].subject)
      ensures Expiries(clusterId, certs)[(clusterId, certs[i].subject)] == certs[i].notAfter
    {
      assert IsLastOf(certs, i);
    }
  }

  /** The two vectors that a read of the bundle calls for. */
  ghost function ExpiryVector(clusterId: string, read: Read): map<(string, string), int> {
    if read.Found? && read.bundle.Parsed? then Expiries(clusterId, read.bundle.certs) else map[]
  }

  ghost function ValidityVector(clusterId: string, read: Read): map<string, int> {
    if read.Found? && read.bundle.Parsed? && read.bundle.certs != [] then map[clusterId := 1]
    else if read.Found? && IsParseFailure(read.bundle) then map[clusterId := 0]
    else map[]
  }

  /** Some expiry is exported exactly when the bundle is exported as valid; 0 stands for an unparseable one alone. */
  lemma VectorsCoupled(clusterId: string, read: Read)
    ensures ExpiryVector(clusterId, read) != map[] <==> ValidityVector(clusterId, read) == map[clusterId := 1]
    ensures ValidityVector(clusterId, read) == map[clusterId := 0] <==> read.Found? && IsParseFailure(read.bundle)
  {
    var one, zero := map[clusterId := 1], map[clusterId := 0];
    assert clusterId in one && one[clusterId] != zero[clusterId];
    if read.Found? && read.bundle.Parsed? && read.bundle.certs != [] {
      var certs := read.bundle.certs;
      LastCertificateWins(clusterId, certs);
      assert (clusterId, certs[0].subject) in Expiries(clusterId, certs);
    }
  }

  class ConfigMapReconciler {
    const metricsAggregator: AdoptionMetricsAggregator
    const clusterId: string
    /** The outcome of the latest complete reconcile's read. */
    ghost var latest: Option<Read>

    /** Whatever the reconciles before it saw, the vectors show the latest read alone, and they are coupled. */
    ghost predicate Valid()
      reads this, metricsAggregator
    {
      var expiry, validity := metricsAggregator.clusterProxyCAExpiry, metricsAggregator.clusterProxyCAValid;
      && expiry == (if latest.Some? then ExpiryVector(clusterId, latest.value) else map[])
      && validity == (if latest.Some? then ValidityVector(clusterId, latest.value) else map[])
      && (expiry != map[] <==> validity == map[clusterId := 1])
    }

    constructor (aggregator: AdoptionMetricsAggregator, clusterId: string)
      requires aggregator.clusterProxyCAExpiry == map[] && aggregator.clusterProxyCAValid == map[]
      ensures Valid() && metricsAggregator == aggregator && this.clusterId == clusterId && latest == None
    {
      metricsAggregator := aggregator;
      this.clusterId := clusterId;
      latest := None;
      new;
      assert clusterId in map[clusterId := 1];
    }

    method Reconcile(read: Read) returns (err: bool)
      requires Valid()
      modifies this`latest, metricsAggregator`clusterProxyCAExpiry, metricsAggregator`clusterProxyCAValid
      ensures Valid() && latest == Some(read)
      ensures read.Found? && read.bundle.Parsed? ==>
                var certs, expiry := read.bundle.certs, metricsAggregator.clusterProxyCAExpiry;
                && (forall k :: k in expiry <==>
                                  k.0 == clusterId && exists i :: 0 <= i < |certs| && certs[i].subject == k.1)
                && (forall i :: 0 <= i < |certs| && (forall j :: i < j < |certs| ==> certs[j].subject != certs[i].subject) ==>
                                  expiry[(clusterId, certs[i].subject)] == certs[i].notAfter)
      ensures !(read.Found? && read.bundle.Parsed?) ==> metricsAggregator.clusterProxyCAExpiry == map[]
      ensures metricsAggregator.clusterProxyCAValid ==
              if read.Found? && read.bundle.Parsed? && read.bundle.certs != [] then map[clusterId := 1]
              else if read.Found? && IsParseFailure(read.bundle) then map[clusterId := 0]
              else map[]
      ensures err <==> read.GetFailed? || (read.Found? && read.bundle.Invalid? && !IsParseFailure(read.bundle))
    {
      latest := Some(read);
      if read.Found? && read.bundle.Parsed? {
        LastOfEachSubject(clusterId, read.bundle.certs);
      }
      VectorsCoupled(clusterId, read);
      metricsAggregator.ResetClusterProxyCAExpiry();
      metricsAggregator.ResetClusterProxyCAValid();
      if !read.Found? {
        return read.GetFailed?;
      }
      if read.bundle.Invalid? {
        if Contains(read.bundle.message, "failed parsing certificate") {
          metricsAggregator.SetClusterProxyCAValid(clusterId, false);
          return false;
        }
        return true;
      }
      var certs := read.bundle.certs;
      if |certs| == 0 {
        return false;
      }
      WriteCertificates(certs);
      err := false;
    }

    /** The loop over the bundle. */
    method WriteCertificates(certs: seq<Certificate>)
      requires metricsAggregator.clusterProxyCAExpiry == map[] && metricsAggregator.clusterProxyCAValid == map[]
      modifies metricsAggregator`clusterProxyCAExpiry, metricsAggregator`clusterProxyCAValid
      ensures metricsAggregator.clusterProxyCAExpiry == Expiries(clusterId, certs)
      ensures metricsAggregator.clusterProxyCAValid == if certs == [] then map[] else map[clusterId := 1]
    {
      for i := 0 to |certs|
        invariant metricsAggregator.clusterProxyCAExpiry == Expiries(clusterId, certs[..i])
        invariant metricsAggregator.clusterProxyCAValid == if i == 0 then map[] else map[clusterId := 1]
      {
        assert certs[..i + 1][..i] == certs[..i];
        metricsAggregator.SetClusterProxyCAExpiry(clusterId, certs[i].subject, certs[i].notAfter);
        metricsAggregator.SetClusterProxyCAValid(clusterId, true);
      }
      assert certs[..|certs|] == certs;
    }
  }
}
