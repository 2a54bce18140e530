/**
 Publication of a verified candidate as a Git tree (src/ai_hq/code_changes/publisher.py): the base tree that the remote
 lists, the change list built from the candidate, and the tree the remote makes of the two. A blob's identity
 stands for the mode and content it names.
 */
module Publisher {
  import opened Prelude
  import opened Manifests
  import opened Ordering
  import opened Sandbox
  import Candidate
  import Delivery
  import Text

  /** One entry of the remote's recursive tree listing. */
  datatype Entry = Entry(path: Option<string>, mode: string, kind: string, content: Content)

  datatype Blob = Blob(mode: string, content: Content)

  type BlobTree = map<string, Blob>

  /** One element of the posted tree; without content it deletes the path. */
  datatype TreeChange = TreeChange(path: string, mode: string, content: Option<Content>)

  /** What the remote answers, in the order it is asked. */
  datatype Remote = Remote(head: string, baseTree: string, truncated: bool, entries: seq<Entry>, tree: string, commit: string)

  datatype Published = Published(identity: Delivery.Publication, baseCommit: string, changes: seq<TreeChange>)

  predicate AllowedMode(mode: string) {
    mode == "100644" || mode == "100755"
  }

  predicate Directory(e: Entry) {
    e.kind == "tree"
  }

  predicate Acceptable(e: Entry) {
    e.path.Some? && if Directory(e) then e.mode == "040000" else e.kind == "blob" && AllowedMode(e.mode)
  }

  /** The blobs of a listing; a path listed twice has its last entry. */
  function BaseOf(entries: seq<Entry>): BlobTree
    requires forall i :: 0 <= i < |entries| ==> Acceptable(entries[i])
  {
    if entries == [] then map[]
    else
      var e := entries[|entries| - 1];
      assert Acceptable(e);
      var earlier := BaseOf(entries[..|entries| - 1]);
      if Directory(e) then earlier else earlier[e.path.value := Blob(e.mode, e.content)]
  }

  /** The tree the remote makes: the base tree with each posted element put in or taken out. */
  function Overlay(base: BlobTree, changes: seq<TreeChange>): BlobTree {
    if changes == [] then base
    else
      var c := changes[|changes| - 1];
      var earlier := Overlay(base, changes[..|changes| - 1]);
      if c.content.None? then earlier - {c.path} else earlier[c.path := Blob(c.mode, c.content.value)]
  }

  /** The mode a changed path is published with: the one it has, or that of a plain file. */
  function ModeOf(base: BlobTree, path: string): string {
    if path in base then base[path].mode else "100644"
  }

  /** Every changed path can be read, and a deleted one exists in the base tree. */
  predicate Publishable(base: BlobTree, c: Candidate.Persisted, path: string) {
    Candidate.ReadChangedFile(c, path).Ok? && (ContentAt(c, path).None? ==> path in base)
  }

  /** What the candidate holds at a changed path: nothing for a deletion. */
  function ContentAt(c: Candidate.Persisted, path: string): Option<Content> {
    var content := Candidate.ReadChangedFile(c, path);
    if content.Ok? then content.value else None
  }

  /** The base tree with exactly the changed paths replaced by what the candidate holds there. */
  function Expected(base: BlobTree, c: Candidate.Persisted): BlobTree {
    map p | p in base.Keys + (set q | q in c.identity.changedFiles)
            && (p in c.identity.changedFiles ==> ContentAt(c, p).Some?)
      :: if p in c.identity.changedFiles then Blob(ModeOf(base, p), ContentAt(c, p).value) else base[p]
  }

  const BRANCH_PREFIX := "ai-hq/candidate/"

  /** `generated_branch_name`: derived from the mission and the change reference alone. */
  function BranchName(sha: Sha, mission: string, changeRef: string): string
    requires IsDigest(changeRef)
  {
    BRANCH_PREFIX + sha(Readable(Text.Strip(mission)))[..12] + "-" + changeRef[7..][..12]
  }

  /** Reads the listing; anything but directories and ordinary files is refused. */
  method ReadBase(entries: seq<Entry>) returns (r: Result<BlobTree>)
    ensures r.Ok? <==> forall i :: 0 <= i < |entries| ==> Acceptable(entries[i])
    ensures r.Ok? ==> forall i :: 0 <= i < |entries| ==>
              && entries[i].path.Some?
              && (entries[i].kind == "tree" ==> entries[i].mode == "040000")
              && (entries[i].kind != "tree" ==> entries[i].kind == "blob" && entries[i].mode in {"100644", "100755"})
    ensures r.Ok? ==> r.value == BaseOf(entries)
  {
    var base: BlobTree := map[];
    for i := 0 to |entries|
      invariant forall j :: 0 <= j < i ==> Acceptable(entries[j])
      invariant base == BaseOf(entries[..i])
    {
      assert entries[..i + 1][..i] == entries[..i];
      var e := entries[i];
      if e.path.None? {
        return Err(RuntimeError);
      }
      if e.kind == "tree" {
        if e.mode != "040000" {
          return Err(RuntimeError);
        }
      } else {
        if e.mode in {"120000", "160000"} || e.kind != "blob" || !AllowedMode(e.mode) {
          return Err(RuntimeError);
        }
        base := base[e.path.value := Blob(e.mode, e.content)];
      }
    }
    assert entries[..|entries|] == entries;
    r := Ok(base);
  }

  predicate ModesAllowed(base: BlobTree) {
    forall p :: p in base ==> AllowedMode(base[p].mode)
  }

  lemma {:induction false} BaseModesAllowed(entries: seq<Entry>)
    requires forall i :: 0 <= i < |entries| ==> Acceptable(entries[i])
    ensures ModesAllowed(BaseOf(entries))
  {
    if entries != [] {
      BaseModesAllowed(entries[..|entries| - 1]);
    }
  }

  /** The tree after posting the changes of some paths. */
  ghost predicate PartOverlaid(base: BlobTree, c: Candidate.Persisted, paths: set<string>, u: BlobTree) {
    forall p :: Overlaid(base, c, paths, u, p)
  }

  predicate Overlaid(base: BlobTree, c: Candidate.Persisted, paths: set<string>, u: BlobTree, p: string) {
    if p !in paths then (p in u <==> p in base) && (p in base ==> u[p] == base[p])
    else
      var content := ContentAt(c, p);
      (p in u <==> content.Some?) && (content.Some? ==> u[p] == Blob(ModeOf(base, p), content.value))
  }

  function ChangeFor(base: BlobTree, c: Candidate.Persisted, path: string): TreeChange {
    TreeChange(path, ModeOf(base, path), ContentAt(c, path))
  }

  lemma OverlayMore(base: BlobTree, c: Candidate.Persisted, paths: set<string>, changes: seq<TreeChange>, path: string)
    requires PartOverlaid(base, c, paths, Overlay(base, changes))
    ensures PartOverlaid(base, c, paths + {path}, Overlay(base, changes + [ChangeFor(base, c, path)]))
  {
    hide ContentAt;
    var u := Overlay(base, changes);
    var more := changes + [ChangeFor(base, c, path)];
    assert more[..|more| - 1] == changes;
    forall p
      ensures Overlaid(base, c, paths + {path}, Overlay(base, more), p)
    {
      assert Overlaid(base, c, paths, u, p);
    }
  }

  lemma AllOverlaid(base: BlobTree, c: Candidate.Persisted, paths: set<string>, u: BlobTree)
    requires PartOverlaid(base, c, paths, u) && forall p :: p in paths <==> p in c.identity.changedFiles
    ensures u == Expected(base, c)
  {
    hide ContentAt;
    forall p
      ensures p in u <==> p in Expected(base, c)
      ensures p in u ==> u[p] == Expected(base, c)[p]
    {
      assert Overlaid(base, c, paths, u, p);
    }
  }

  /** Builds the change list: content with the kept or default mode, or a deletion of a path the base has. */
  method BuildChanges(base: BlobTree, c: Candidate.Persisted) returns (r: Result<seq<TreeChange>>)
    requires ModesAllowed(base)
    ensures r.Ok? <==> forall p :: p in c.identity.changedFiles ==> Publishable(base, c, p)
    ensures r.Ok? ==> |r.value| == |c.identity.changedFiles| && Overlay(base, r.value) == Expected(base, c)
  {
    hide Candidate.ReadChangedFile, Overlay, Expected, PartOverlaid;
    var files := c.identity.changedFiles;
    var changes := [];
    ghost var done: set<string> := {};
    NothingOverlaid(base, c);
    for i := 0 to |files|
      invariant |changes| == i && (forall p :: p in done <==> p in files[..i])
      invariant forall p :: p in done ==> Publishable(base, c, p)
      invariant PartOverlaid(base, c, done, Overlay(base, changes))
    {
      var path := files[i];
      assert path in files;
      assert files[..i + 1] == files[..i] + [path];
      var content := Candidate.ReadChangedFile(c, path);
      if content.Err? {
        return Err(content.error);
      }
      var mode := if path in base then base[path].mode else "100644";
      if !AllowedMode(mode) {
        return Err(RuntimeError);
      }
      if content.value.None? && path !in base {
        return Err(RuntimeError);
      }
      OverlayMore(base, c, done, changes, path);
      changes := changes + [TreeChange(path, mode, content.value)];
      done := done + {path};
    }
    assert files[..|files|] == files;
    AllOverlaid(base, c, done, Overlay(base, changes));
    r := Ok(changes);
  }

  lemma NothingOverlaid(base: BlobTree, c: Candidate.Persisted)
    ensures PartOverlaid(base, c, {}, Overlay(base, []))
  {
  }

  /**
   Publishes a candidate on the commit it was made from. Success means that the published tree is the base tree
   overlaid with exactly the changed paths, under a generated branch name that the delivery record accepts.
   */
  method Publish(sha: Sha, c: Candidate.Persisted, remote: Remote) returns (r: Result<Published>)
    ensures r.Ok? <==> CanPublish(c, remote)
    ensures r.Ok? ==>
              && r.value.baseCommit == c.identity.baseCommit == remote.head
              && Overlay(BaseOf(remote.entries), r.value.changes) == Expected(BaseOf(remote.entries), c)
              && PublishedAs(BaseOf(remote.entries), c, Overlay(BaseOf(remote.entries), r.value.changes))
              && r.value.identity == Delivery.Publication(BranchName(sha, c.identity.mission, c.changeRef), remote.commit, remote.tree)
              && Delivery.ValidPublication(r.value.identity)
  {
    hide Candidate.ReadChangedFile, Text.Strip, Overlay, Expected;
    var base := c.identity.baseCommit;
    if base == seq(40, _ => '0') || !Text.IsGitSha(base) {
      return Err(ValueError);
    }
    if !Text.IsGitSha(remote.head) || remote.head != base || !Text.IsGitSha(remote.baseTree) || remote.truncated {
      return Err(RuntimeError);
    }
    var entries := ReadBase(remote.entries);
    if entries.Err? {
      return Err(entries.error);
    }
    BaseModesAllowed(remote.entries);
    var changes := BuildChanges(entries.value, c);
    if changes.Err? {
      return Err(changes.error);
    }
    if !Text.IsGitSha(remote.tree) || !Text.IsGitSha(remote.commit) {
      return Err(RuntimeError);
    }
    if Text.Strip(c.identity.mission) == "" || !IsDigest(c.changeRef) {
      return Err(ValueError);
    }
    ExpectedMeans(entries.value, c);
    r := Ok(Published(Delivery.Publication(BranchName(sha, c.identity.mission, c.changeRef), remote.commit, remote.tree), base, changes.value));
  }

  /**
   A changed path that is kept has the candidate's content, with the mode it had or that of a plain file; a deleted one
   is gone; every other path is as in the base.
   */
  ghost predicate PublishedAs(base: BlobTree, c: Candidate.Persisted, tree: BlobTree) {
    forall p ::
      && (p !in c.identity.changedFiles ==> (p in tree <==> p in base) && (p in tree ==> tree[p] == base[p]))
      && (p in c.identity.changedFiles ==>
            var content := Candidate.ReadChangedFile(c, p);
            && content.Ok? && (p in tree <==> content.value.Some?)
            && (content.value.None? ==> p in base)
            && (content.value.Some? ==> tree[p] == Blob(if p in base then base[p].mode else "100644", content.value.value)))
  }

  lemma ExpectedMeans(base: BlobTree, c: Candidate.Persisted)
    requires forall p :: p in c.identity.changedFiles ==> Publishable(base, c, p)
    ensures PublishedAs(base, c, Expected(base, c))
  {
    hide Candidate.ReadChangedFile;
    forall p | p in c.identity.changedFiles
      ensures Publishable(base, c, p)
    {
    }
  }

  /** The remote is still at the candidate's base, lists only ordinary files, and every change can be made. */
  predicate CanPublish(c: Candidate.Persisted, remote: Remote) {
    && c.identity.baseCommit != seq(40, _ => '0') && Text.IsGitSha(c.identity.baseCommit) && remote.head == c.identity.baseCommit
    && Text.IsGitSha(remote.baseTree) && !remote.truncated
    && (forall i :: 0 <= i < |remote.entries| ==> Acceptable(remote.entries[i]))
    && (forall p :: p in c.identity.changedFiles ==> Publishable(BaseOf(remote.entries), c, p))
    && Text.IsGitSha(remote.tree) && Text.IsGitSha(remote.commit) && Text.Strip(c.identity.mission) != "" && IsDigest(c.changeRef)
  }

  // ---------- the published tree and the workspace ----------

  /** The content at a path of a published tree, and of a workspace. */
  function Content(t: BlobTree, p: string): Option<Manifests.Content> {
    if p in t then Some(t[p].content) else None
  }

  function WorkspaceContent(t: Tree, p: string): Option<Manifests.Content> {
    if p in t && t[p].Regular? then Some(t[p].content) else None
  }

  /** The base tree is the sandbox base, on every path the base tree has. */
  predicate SameBase(base: BlobTree, sandbox: Tree) {
    forall p :: p in base ==> !Untracked(p) && p in sandbox && sandbox[p] == Regular(base[p].content)
  }

  /** Two files of a sandbox and a workspace that digests cannot tell apart. */
  ghost predicate Confused(sha: Sha, t: Tree, u: Tree) {
    exists p :: p in t && p in u && t[p].Regular? && u[p].Regular? && Collision(sha, t[p].content, u[p].content)
  }

  /**
   When the remote's base tree is the sandbox base and the candidate names the files that changed since, the published
   tree and the workspace hold the same content at every path that is tracked or changed. (Or a collision is found.)
   */
  lemma PublishedTreeIsTheWorkspace(sha: Sha, base: BlobTree, sandbox: Tree, c: Candidate.Persisted, p: string)
    requires SameBase(base, sandbox)
    requires c.identity.changedFiles == Sorted(Changed(ManifestOf(sha, sandbox), ManifestOf(sha, c.workspace)))
    requires forall q :: q in c.identity.changedFiles ==> Publishable(base, c, q)
    requires p in base || p in c.identity.changedFiles
    ensures Content(Expected(base, c), p) == WorkspaceContent(c.workspace, p) || Confused(sha, sandbox, c.workspace)
  {
    hide Changed, ManifestOf, Untracked, SameBase, ThroughLink, IsDirectory;
    if p in c.identity.changedFiles {
      assert Publishable(base, c, p);
    } else {
      assert !Untracked(p) && p in sandbox && sandbox[p] == Regular(base[p].content) by {
        TrackedInBase(base, sandbox, p);
      }
      ChangedMeansDifferent(sha, sandbox, c.workspace, p);
    }
  }

  lemma TrackedInBase(base: BlobTree, sandbox: Tree, p: string)
    requires SameBase(base, sandbox) && p in base
    ensures !Untracked(p) && p in sandbox && sandbox[p] == Regular(base[p].content)
  {
  }
}
