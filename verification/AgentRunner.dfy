/**
 The fixed order in which a proposed change becomes a verified candidate: apply, review diff, tests, verification
 (src/ai_hq/delivery/agent_runner.py). Here the sandbox, the verifier and the store meet.
 */
module AgentRunner {
  import opened Prelude
  import opened CanonicalJson
  import opened Manifests
  import opened Ordering
  import opened Sandbox
  import opened SandboxService
  import Candidate
  import Text

  /** The guarantees of a workspace made by `prepare` for a trusted repository profile. */
  predicate Prepared(w: Workspace) {
    && w.repository in {"ai-hq", "dripvid"} && Text.Strip(w.baseRef) == w.baseRef
    && Text.IsGitSha(w.baseCommit) && Candidate.IsUuid(w.id)
  }

  lemma HexIsTrimmed(s: string, n: nat)
    requires Text.IsHex(s, n) && n > 0
    ensures Text.Strip(s) == s
  {
  }

  lemma UuidIsTrimmed(s: string)
    requires Candidate.IsUuid(s)
    ensures Text.Strip(s) == s
  {
  }

  lemma NamesAreTrimmed()
    ensures Text.Strip("ai-hq") == "ai-hq" && Text.Strip("dripvid") == "dripvid"
  {
    hide Text.Strip;
    Text.StripIsIdentity("ai-hq");
    Text.StripIsIdentity("dripvid");
  }

  lemma SnapshotIsTrimmed(w: Workspace, s: Candidate.Snapshot)
    requires Prepared(w) && s.workspaceId == w.id && s.repository == w.repository && s.baseRef == w.baseRef && s.baseCommit == w.baseCommit
    requires IsDigest(s.diffDigest) && IsDigest(s.contentDigest)
    ensures Candidate.Trimmed(s)
  {
    hide Text.Strip;
    UuidIsTrimmed(w.id);
    HexIsTrimmed(w.baseCommit, 40);
    NamesAreTrimmed();
    Candidate.DigestIsTrimmed(s.diffDigest);
    Candidate.DigestIsTrimmed(s.contentDigest);
  }

  lemma CanonicalIsDigest(sha: Sha, j: Json)
    ensures IsDigest(CanonicalDigest(sha, j))
  {
  }

  class DeliveryAgentRunner {
    const sandbox: IsolatedRepositorySandbox

    constructor (sandbox: IsolatedRepositorySandbox)
      ensures this.sandbox == sandbox
    {
      this.sandbox := sandbox;
    }

    /** The workspace as the candidate store finds it on disk. */
    ghost function Disk(w: Workspace): Candidate.Disk
      requires w.id in sandbox.disk
      reads sandbox
    {
      map[(w.repository, w.id) := sandbox.disk[w.id]]
    }

    /**
     Turns a change list into a verified candidate. If nothing touches the workspace afterwards, the candidate can be
     reopened exactly when the base is main, its paths are safe, and mission id and paths are plain.
     */
    method VerifyAndPersist(w: Workspace, mission: string, summary: Option<string>, changes: seq<Change>, tests: Result<Candidate.Tests>)
      returns (r: Result<Candidate.Verified>)
      requires sandbox.Valid()
      modifies sandbox
      ensures sandbox.Valid()
      ensures summary.None? || Text.Strip(summary.value) == "" ==>
                r.Err? && sandbox.disk == old(sandbox.disk) && sandbox.states == old(sandbox.states)
      ensures r.Ok? ==>
                && old(sandbox.Known(w)) && w.id in sandbox.disk && ApplyAll(old(sandbox.disk)[w.id], changes) == Ok(sandbox.disk[w.id])
                && tests == Ok(Candidate.Tests(true, 0))
                && r.value.changedFiles == Stripped(Sorted(Changed(old(sandbox.states)[w.id].base, ManifestOf(sandbox.sha, sandbox.disk[w.id]))))
      ensures r.Ok? && Prepared(w) ==>
                var v := r.value;
                var loaded := Candidate.LoadVerified(sandbox.sha, mission, v.changeRef, v.changedFiles, v.evidence, Disk(w));
                && (w.baseRef == "main" && Candidate.SafePaths(v.changedFiles) && Plain(v.mission) && Candidate.PlainPaths(v.changedFiles) ==>
                      loaded.Ok? && loaded.value.workspace == sandbox.disk[w.id] && loaded.value.identity.changedFiles == v.changedFiles)
                && (w.baseRef != "main" || !Candidate.SafePaths(v.changedFiles) ==> loaded.Err?)
    {
      hide Dump, Text.Strip, ManifestJson, Sections, ApplyAll, Changed, ManifestOf, Candidate.IdentityJson, DiffText;
      if summary.None? || Text.Strip(summary.value) == "" {
        return Err(ValueError);
      }
      var snapshot := sandbox.ApplyChanges(w, changes);
      if snapshot.Err? {
        return Err(snapshot.error);
      }
      var s := snapshot.value;
      var diff := sandbox.ReviewDiffOf(w);
      if diff.Err? {
        return Err(diff.error);
      }
      if tests.Err? {
        return Err(tests.error);
      }
      var text := Some(DiffText(sandbox.render, diff.value));
      r := Candidate.Verify(sandbox.sha, mission, summary, tests.value, s, text);
      if r.Ok? && Prepared(w) {
        ghost var base, m := old(sandbox.states)[w.id].base, ManifestOf(sandbox.sha, sandbox.disk[w.id]);
        CanonicalIsDigest(sandbox.sha, DiffJson(base, m, Sorted(Changed(base, m))));
        CanonicalIsDigest(sandbox.sha, ManifestJson(m));
        SnapshotIsTrimmed(w, s);
        Candidate.ReopensExactlyWhenPlain(sandbox.sha, mission, summary, tests.value, s, text, Disk(w));
      }
    }
  }
}
