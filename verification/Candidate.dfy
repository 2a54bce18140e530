/**
 The identity of a verified candidate (src/ai_hq/delivery/candidate_verifier.py) and its reopening
 (src/ai_hq/code_changes/candidate_store.py). The verifier digests the identity with `ensure_ascii=False`, the
 store with the default; the round trip holds exactly where the two texts, or their digests, coincide.
 */
module Candidate {
  import opened Prelude
  import opened CanonicalJson
  import opened Manifests
  import opened Ordering
  import Text

  datatype Snapshot = Snapshot(
    workspaceId: string, repository: string, baseRef: string, changedFiles: seq<string>,
    diffDigest: string, contentDigest: string, baseCommit: string)

  datatype Tests = Tests(passed: bool, exitCode: int)

  datatype Identity = Identity(
    mission: string, repository: string, baseRef: string, baseCommit: string, workspaceId: string,
    changedFiles: seq<string>, diffDigest: string, contentDigest: string)

  /** What the evidence mapping holds under each key, if anything. */
  datatype Evidence = Evidence(
    verification: Option<string>, algorithm: Option<string>, changeRef: Option<string>, workspaceId: Option<string>,
    repository: Option<string>, baseRef: Option<string>, baseCommit: Option<string>,
    diffDigest: Option<string>, contentDigest: Option<string>)

  datatype Verified = Verified(mission: string, changeRef: string, summary: string, changedFiles: seq<string>, evidence: Evidence)

  datatype Persisted = Persisted(identity: Identity, changeRef: string, workspace: Tree)

  /** The workspaces under the sandbox root, by repository and workspace id. */
  type Disk = map<(string, string), Tree>

  function Texts(files: seq<string>): (items: seq<Json>)
    ensures |items| == |files| && forall i :: 0 <= i < |files| ==> items[i] == Str(files[i])
  {
    seq(|files|, i requires 0 <= i < |files| => Str(files[i]))
  }

  /** The identity payload, in key order. */
  function IdentityJson(i: Identity): Json {
    Obj([Field("base_commit", Str(i.baseCommit)), Field("base_ref", Str(i.baseRef)),
         Field("changed_files", Arr(Texts(i.changedFiles))), Field("content_digest", Str(i.contentDigest)),
         Field("diff_digest", Str(i.diffDigest)), Field("mission_id", Str(i.mission)),
         Field("repository", Str(i.repository)), Field("workspace_id", Str(i.workspaceId))])
  }

  lemma IdentityJsonIsInjective(a: Identity, b: Identity)
    requires IdentityJson(a) == IdentityJson(b)
    ensures a == b
  {
  }

  function IdentityOf(s: Snapshot, mission: string): Identity {
    Identity(mission, s.repository, s.baseRef, s.baseCommit, s.workspaceId, s.changedFiles, s.diffDigest, s.contentDigest)
  }

  function EvidenceFor(s: Snapshot, changeRef: string): Evidence {
    Evidence(Some("candidate_identity_verified"), Some("sha256"), Some(changeRef), Some(s.workspaceId), Some(s.repository),
             Some(s.baseRef), Some(s.baseCommit), Some(s.diffDigest), Some(s.contentDigest))
  }

  /** `verify`: binds a proposal to the observed snapshot by the digest of the identity. */
  function Verify(sha: Sha, missionId: string, summary: Option<string>, tests: Tests, s: Snapshot, diff: Option<string>): (r: Result<Verified>)
    ensures r.Ok? <==>
            && Text.Strip(missionId) != "" && summary.Some? && Text.Strip(summary.value) != "" && tests == Tests(true, 0)
            && (s.changedFiles == [] || diff != Some(""))
    ensures r.Ok? ==> r.value.mission == Text.Strip(missionId) && r.value.changedFiles == s.changedFiles && IsDigest(r.value.changeRef)
  {
    var mission := Text.Strip(missionId);
    if mission == "" || summary.None? || Text.Strip(summary.value) == "" then Err(ValueError)
    else if !tests.passed || tests.exitCode != 0 then Err(ValueError)
    else if diff == Some("") && s.changedFiles != [] then Err(ValueError)
    else
      var changeRef := Digest(sha, Readable(Dump(false, IdentityJson(IdentityOf(s, mission)))));
      Ok(Verified(mission, changeRef, Text.Strip(summary.value), s.changedFiles, EvidenceFor(s, changeRef)))
  }

  // ---------- reopening ----------

  /** `_required`: the value without surrounding spaces; blank and missing values are refused. */
  function Required(v: Option<string>): string {
    if v.None? then "" else Text.Strip(v.value)
  }

  predicate IsUuid(s: string) {
    && |s| == 36
    && forall i :: 0 <= i < 36 ==> if i in {8, 13, 18, 23} then s[i] == '-' else Text.IsHexDigit(s[i])
  }

  predicate SafePath(p: string) {
    NormalPath(p) && Parts(p)[0] != ".git"
  }

  /** The five groups of a canonical UUID. */
  lemma UuidGroups(s: string)
    ensures IsUuid(s) <==>
            && |s| == 36 && s[8] == s[13] == s[18] == s[23] == '-' && Text.IsHex(s[..8], 8) && Text.IsHex(s[9..13], 4)
            && Text.IsHex(s[14..18], 4) && Text.IsHex(s[19..23], 4) && Text.IsHex(s[24..], 12)
  {
    if |s| == 36 {
      assert forall i :: 0 <= i < 8 ==> s[i] == s[..8][i];
      assert forall i :: 9 <= i < 13 ==> s[i] == s[9..13][i - 9];
      assert forall i :: 14 <= i < 18 ==> s[i] == s[14..18][i - 14];
      assert forall i :: 19 <= i < 23 ==> s[i] == s[19..23][i - 19];
      assert forall i :: 24 <= i < 36 ==> s[i] == s[24..][i - 24];
    }
  }

  /** A safe path is normal and does not lie in the top-level `.git`. */
  lemma SafePathMeans(p: string)
    ensures SafePath(p) <==>
            && p != "" && '\\' !in p && p != ".git" && !(".git/" <= p)
            && forall part :: part in Parts(p) ==> part !in {"", ".", ".."}
  {
    hide Parts, NormalPath;
    StartsIn(p, ".git");
    NormalMeans(p);
  }

  ghost predicate SafePaths(files: seq<string>) {
    StrictlySorted(files) && forall i :: 0 <= i < |files| ==> SafePath(files[i])
  }

  /** The identity the store rebuilds from its arguments. */
  function Claimed(missionId: string, files: seq<string>, e: Evidence): Identity {
    Identity(Text.Strip(missionId), Required(e.repository), Required(e.baseRef), Required(e.baseCommit), Required(e.workspaceId),
             files, Required(e.diffDigest), Required(e.contentDigest))
  }

  /** The form the store demands of an identity. */
  ghost predicate WellFormed(i: Identity) {
    && i.mission != "" && i.repository in {"ai-hq", "dripvid"} && i.baseRef == "main"
    && Text.IsGitSha(i.baseCommit) && IsUuid(i.workspaceId) && IsDigest(i.diffDigest) && IsDigest(i.contentDigest)
    && SafePaths(i.changedFiles)
  }

  ghost predicate Loadable(sha: Sha, missionId: string, changeRef: string, files: seq<string>, e: Evidence, disk: Disk) {
    var i := Claimed(missionId, files, e);
    && e.verification == Some("candidate_identity_verified") && (e.algorithm == None || e.algorithm == Some("sha256"))
    && IsDigest(Text.Strip(changeRef)) && Required(e.changeRef) == Text.Strip(changeRef)
    && WellFormed(i)
    && CanonicalDigest(sha, IdentityJson(i)) == Text.Strip(changeRef)
    && (i.repository, i.workspaceId) in disk
    && CanonicalDigest(sha, ManifestJson(ManifestOf(sha, disk[(i.repository, i.workspaceId)]))) == i.contentDigest
  }

  /** `load_verified`: every failed check raises the same exception, so their order does not matter. */
  ghost function LoadVerified(sha: Sha, missionId: string, changeRef: string, files: seq<string>, e: Evidence, disk: Disk): Result<Persisted> {
    if !Loadable(sha, missionId, changeRef, files, e, disk) then Err(ValueError)
    else
      var i := Claimed(missionId, files, e);
      Ok(Persisted(i, Text.Strip(changeRef), disk[(i.repository, i.workspaceId)]))
  }

  /** `read_changed_file`: None for a deleted file. */
  function ReadChangedFile(c: Persisted, path: string): (r: Result<Option<Content>>)
    ensures r.Ok? ==>
              && path in c.identity.changedFiles && SafePath(path)
              && (r.value.None? <==> path !in c.workspace)
              && (r.value.Some? ==> c.workspace[path] == Regular(r.value.value))
    ensures path in c.identity.changedFiles && SafePath(path) && !ThroughLink(c.workspace, path) && !IsDirectory(c.workspace, path) ==> r.Ok?
    ensures ThroughLink(c.workspace, path) || IsDirectory(c.workspace, path) ==> r.Err?
  {
    if !SafePath(path) || path !in c.identity.changedFiles || ThroughLink(c.workspace, path) || IsDirectory(c.workspace, path)
    then Err(ValueError)
    else if path !in c.workspace then Ok(None)
    else match c.workspace[path]
         case Regular(content) => Ok(Some(content))
         case Link(_) => Err(ValueError)
  }

  // ---------- the round trip ----------

  /** What the constructor of a snapshot guarantees: no field has spaces around it. */
  predicate Trimmed(s: Snapshot) {
    && Text.Strip(s.workspaceId) == s.workspaceId && Text.Strip(s.repository) == s.repository
    && Text.Strip(s.baseRef) == s.baseRef && Text.Strip(s.baseCommit) == s.baseCommit
    && Text.Strip(s.diffDigest) == s.diffDigest && Text.Strip(s.contentDigest) == s.contentDigest
  }

  lemma HexIsPlain(s: string, n: nat)
    requires Text.IsHex(s, n)
    ensures Plain(s)
  {
  }

  lemma DigestIsPlain(s: string)
    requires IsDigest(s)
    ensures Plain(s)
  {
  }

  lemma UuidIsPlain(s: string)
    requires IsUuid(s)
    ensures Plain(s)
  {
  }

  predicate PlainPaths(files: seq<string>) {
    forall k :: 0 <= k < |files| ==> Plain(files[k])
  }

  /** In a well-formed identity only the mission id and the paths can hold characters at or above DEL. */
  lemma PlainIdentity(i: Identity)
    requires WellFormed(i)
    ensures PlainJson(IdentityJson(i)) <==> Plain(i.mission) && PlainPaths(i.changedFiles)
  {
    HexIsPlain(i.baseCommit, 40);
    DigestIsPlain(i.diffDigest);
    DigestIsPlain(i.contentDigest);
    UuidIsPlain(i.workspaceId);
    var items := Texts(i.changedFiles);
    assert PlainJson(Arr(items)) <==> PlainPaths(i.changedFiles) by {
      assert forall k :: 0 <= k < |items| ==> (PlainJson(items[k]) <==> Plain(i.changedFiles[k]));
    }
    KeysArePlain();
    var f := IdentityJson(i).fields;
    assert PlainJson(f[2].value) <==> PlainPaths(i.changedFiles);
    assert PlainJson(f[5].value) <==> Plain(i.mission);
    if PlainJson(f[2].value) && PlainJson(f[5].value) {
      forall k | 0 <= k < |f|
        ensures Plain(f[k].key) && PlainJson(f[k].value)
      {
      }
    }
  }

  lemma KeysArePlain()
    ensures Plain("base_commit") && Plain("base_ref") && Plain("changed_files") && Plain("content_digest")
    ensures Plain("diff_digest") && Plain("mission_id") && Plain("repository") && Plain("workspace_id")
  {
  }

  // ---------- main results ----------

  /** The two texts of an identity: the verifier's and the store's. */
  function VerifierText(i: Identity): string {
    Dump(false, IdentityJson(i))
  }

  function StoreText(i: Identity): string {
    Dump(true, IdentityJson(i))
  }

  /**
   A verified candidate whose workspace is unchanged is reopened exactly when its identity is in the form the store
   demands and is plain: the mission id and every path below DEL. (Or SHA-256 fails to tell its two texts apart.)
   */
  lemma ReopensExactlyWhenPlain(sha: Sha, missionId: string, summary: Option<string>, tests: Tests, s: Snapshot, diff: Option<string>,
                                disk: Disk)
    requires Trimmed(s) && Verify(sha, missionId, summary, tests, s, diff).Ok?
    requires (s.repository, s.workspaceId) in disk
    requires s.contentDigest == CanonicalDigest(sha, ManifestJson(ManifestOf(sha, disk[(s.repository, s.workspaceId)])))
    ensures var v := Verify(sha, missionId, summary, tests, s, diff).value;
            var i := IdentityOf(s, v.mission);
            LoadVerified(sha, missionId, v.changeRef, v.changedFiles, v.evidence, disk).Ok? <==>
            && WellFormed(i)
            && ((Plain(v.mission) && PlainPaths(s.changedFiles)) || Collision(sha, Readable(VerifierText(i)), Readable(StoreText(i))))
  {
    hide Dump, Text.Strip, PlainJson, ManifestJson, SafePaths, IdentityJson;
    var v := Verify(sha, missionId, summary, tests, s, diff).value;
    var i := IdentityOf(s, v.mission);
    DigestIsTrimmed(v.changeRef);
    assert Claimed(missionId, v.changedFiles, v.evidence) == i;
    ModesAgree(IdentityJson(i));
    if WellFormed(i) {
      PlainIdentity(i);
    }
    assert CanonicalDigest(sha, IdentityJson(i)) == v.changeRef <==> sha(Readable(VerifierText(i))) == sha(Readable(StoreText(i))) by {
      assert CanonicalDigest(sha, IdentityJson(i))[7..] == sha(Readable(StoreText(i)));
      assert v.changeRef[7..] == sha(Readable(VerifierText(i)));
    }
  }

  lemma DigestIsTrimmed(d: string)
    requires IsDigest(d)
    ensures Text.Strip(d) == d
  {
  }

  /** The two identities a digest may have confused. */
  predicate IdentityCollision(sha: Sha, a: Identity, b: Identity) {
    Collision(sha, Readable(VerifierText(a)), Readable(StoreText(b)))
  }

  ghost predicate ManifestCollision(sha: Sha, m: Manifest, n: Manifest) {
    Collision(sha, Readable(Dump(true, ManifestJson(m))), Readable(Dump(true, ManifestJson(n))))
  }

  /**
   Whatever arguments and evidence are presented, a reload accepted under a verified change reference has the eight
   identity fields that were verified and a workspace with the manifest that was verified. (Or a collision is found.)
   */
  lemma ReloadIsTheVerifiedCandidate(sha: Sha, missionId: string, summary: Option<string>, tests: Tests, s: Snapshot, diff: Option<string>,
                                     verified: Tree, presented: string, changeRef: string, files: seq<string>, e: Evidence, disk: Disk)
    requires Verify(sha, missionId, summary, tests, s, diff).Ok?
    requires s.contentDigest == CanonicalDigest(sha, ManifestJson(ManifestOf(sha, verified)))
    requires LoadVerified(sha, presented, changeRef, files, e, disk).Ok?
    requires Text.Strip(changeRef) == Verify(sha, missionId, summary, tests, s, diff).value.changeRef
    ensures var i := IdentityOf(s, Text.Strip(missionId));
            var loaded := LoadVerified(sha, presented, changeRef, files, e, disk).value;
            || (loaded.identity == i && ManifestOf(sha, loaded.workspace) == ManifestOf(sha, verified))
            || IdentityCollision(sha, i, loaded.identity)
            || ManifestCollision(sha, ManifestOf(sha, loaded.workspace), ManifestOf(sha, verified))
  {
    hide Dump, Text.Strip, PlainJson, ManifestJson, WellFormed, IdentityJson, ManifestOf;
    var i := IdentityOf(s, Text.Strip(missionId));
    var loaded := LoadVerified(sha, presented, changeRef, files, e, disk).value;
    var j := loaded.identity;
    DigestsIdentify(sha, Readable(VerifierText(i)), Readable(StoreText(j)));
    if !IdentityCollision(sha, i, j) {
      CrossModeText(IdentityJson(i), IdentityJson(j));
      IdentityJsonIsInjective(i, j);
      ManifestDigestsIdentify(sha, ManifestOf(sha, loaded.workspace), ManifestOf(sha, verified));
    }
  }
}
