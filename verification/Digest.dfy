/** The digest of canonical evidence and what it does not depend on. */
module Digest {
  import opened Wrappers
  import opened Evidence
  import opened Observer

  function NormalResult(r: CommandResult): CommandResult {
    r.(durationMs := 0, stdoutDigest := "", stderrDigest := "")
  }

  function NormalResults(results: seq<CommandResult>): seq<CommandResult> {
    seq(|results|, i requires 0 <= i < |results| => NormalResult(results[i]))
  }

  function NormalIntelligence(sources: seq<ExternalIntelligence>): seq<ExternalIntelligence> {
    seq(|sources|, i requires 0 <= i < |sources| => sources[i].(retrievedAt := None))
  }

  /** What the loops leave of the evidence. */
  function Normal(e: CanonicalEvidence): CanonicalEvidence {
    e.(commandResults := map world | world in e.commandResults :: NormalResults(e.commandResults[world]),
       externalIntelligence := NormalIntelligence(e.externalIntelligence))
  }

  /** The loops of `digest`, over a copy of the evidence. */
  method Normalize(e: CanonicalEvidence) returns (normalized: CanonicalEvidence)
    ensures normalized == Normal(e)
  {
    var results := e.commandResults;
    var worlds := results.Keys;
    while worlds != {}
      invariant results.Keys == e.commandResults.Keys && worlds <= results.Keys
      invariant forall w | w in results ::
        results[w] == if w in worlds then e.commandResults[w] else NormalResults(e.commandResults[w])
      decreases |worlds|
    {
      var world :| world in worlds;
      var list := results[world];
      for i := 0 to |list|
        invariant |list| == |e.commandResults[world]|
        invariant forall j | 0 <= j < |list| ::
          list[j] == if j < i then NormalResult(e.commandResults[world][j]) else e.commandResults[world][j]
      {
        var result := list[i];
        result := result.(durationMs := 0);
        result := result.(stdoutDigest := "");
        result := result.(stderrDigest := "");
        list := list[i := result];
      }
      assert list == NormalResults(e.commandResults[world]);
      results := results[world := list];
      worlds := worlds - {world};
    }
    var sources := e.externalIntelligence;
    for i := 0 to |sources|
      invariant |sources| == |e.externalIntelligence|
      invariant forall j | 0 <= j < |sources| ::
        sources[j] == if j < i then e.externalIntelligence[j].(retrievedAt := None) else e.externalIntelligence[j]
    {
      sources := sources[i := sources[i].(retrievedAt := None)];
    }
    assert sources == NormalIntelligence(e.externalIntelligence);
    assert results == Normal(e).commandResults;
    normalized := e.(commandResults := results, externalIntelligence := sources);
  }

  function CanonicalDigest(digest: CanonicalEvidence -> string, e: CanonicalEvidence): string {
    digest(Normal(e))
  }

  // ---- What the digest tells apart ----

  predicate SameResult(a: CommandResult, b: CommandResult) {
    a.name == b.name && a.status == b.status && a.exitCode == b.exitCode && a.cpuMs == b.cpuMs &&
        a.peakMemoryBytes == b.peakMemoryBytes
  }

  predicate SameResults(a: seq<CommandResult>, b: seq<CommandResult>) {
    |a| == |b| && forall i | 0 <= i < |a| :: SameResult(a[i], b[i])
  }

  predicate SameSource(a: ExternalIntelligence, b: ExternalIntelligence) {
    a.provider == b.provider && a.sourceId == b.sourceId && a.status == b.status && a.findings == b.findings
  }

  predicate SameSources(a: seq<ExternalIntelligence>, b: seq<ExternalIntelligence>) {
    |a| == |b| && forall i | 0 <= i < |a| :: SameSource(a[i], b[i])
  }

  /** Equal outside durations, log digests and retrieval times. */
  predicate SameEvidence(a: CanonicalEvidence, b: CanonicalEvidence) {
    && a.schemaVersion == b.schemaVersion && a.normalizationVersion == b.normalizationVersion
    && a.methodologyVersion == b.methodologyVersion && a.packagePurl == b.packagePurl
    && a.fromVersion == b.fromVersion && a.toVersion == b.toVersion
    && a.baselineArtifactSha256 == b.baselineArtifactSha256 && a.candidateArtifactSha256 == b.candidateArtifactSha256
    && a.baselineLockfileDigest == b.baselineLockfileDigest && a.candidateLockfileDigest == b.candidateLockfileDigest
    && a.baselineGraphDigest == b.baselineGraphDigest && a.candidateGraphDigest == b.candidateGraphDigest
    && a.behaviorDigests == b.behaviorDigests && a.policyOutcome == b.policyOutcome && a.provenance == b.provenance
    && a.commandResults.Keys == b.commandResults.Keys
    && (forall w | w in a.commandResults :: SameResults(a.commandResults[w], b.commandResults[w]))
    && SameSources(a.externalIntelligence, b.externalIntelligence)
  }

  lemma ResultsKernel(a: seq<CommandResult>, b: seq<CommandResult>)
    ensures NormalResults(a) == NormalResults(b) <==> SameResults(a, b)
  {
    if NormalResults(a) == NormalResults(b) {
      assert |a| == |NormalResults(a)| == |b|;
      forall i | 0 <= i < |a|
        ensures SameResult(a[i], b[i])
      {
        assert NormalResults(a)[i] == NormalResults(b)[i];
      }
    }
  }

  lemma SourcesKernel(a: seq<ExternalIntelligence>, b: seq<ExternalIntelligence>)
    ensures NormalIntelligence(a) == NormalIntelligence(b) <==> SameSources(a, b)
  {
    if NormalIntelligence(a) == NormalIntelligence(b) {
      assert |a| == |NormalIntelligence(a)| == |b|;
      forall i | 0 <= i < |a|
        ensures SameSource(a[i], b[i])
      {
        assert NormalIntelligence(a)[i] == NormalIntelligence(b)[i];
      }
    }
  }

  lemma NormalKernel(a: CanonicalEvidence, b: CanonicalEvidence)
    ensures Normal(a) == Normal(b) <==> SameEvidence(a, b)
  {
    SourcesKernel(a.externalIntelligence, b.externalIntelligence);
    var p, q := Normal(a).commandResults, Normal(b).commandResults;
    assert p.Keys == a.commandResults.Keys && q.Keys == b.commandResults.Keys;
    forall w | w in a.commandResults && w in b.commandResults
      ensures p[w] == q[w] <==> SameResults(a.commandResults[w], b.commandResults[w])
    {
      ResultsKernel(a.commandResults[w], b.commandResults[w]);
    }
    if Normal(a) == Normal(b) {
      assert p == q;
    }
    if SameEvidence(a, b) {
      assert p == q;
    }
  }

  /** With an injective hash, two pieces of evidence have the same digest exactly
      when they agree outside durations, log digests and retrieval times. */
  lemma DigestKernel(digest: CanonicalEvidence -> string, a: CanonicalEvidence, b: CanonicalEvidence)
    requires Injective(digest)
    ensures CanonicalDigest(digest, a) == CanonicalDigest(digest, b) <==> SameEvidence(a, b)
  {
    NormalKernel(a, b);
  }

  /** Normalising twice is normalising once. */
  lemma NormalIdempotent(e: CanonicalEvidence)
    ensures Normal(Normal(e)) == Normal(e) && SameEvidence(Normal(e), e)
  {
    NormalKernel(Normal(e), e);
    var n := Normal(e);
    forall w | w in e.commandResults
      ensures SameResults(n.commandResults[w], e.commandResults[w])
    {
    }
  }
}
