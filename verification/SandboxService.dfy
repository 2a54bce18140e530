/**
 IsolatedRepositorySandbox as an object (src/ai_hq/delivery/repository_sandbox.py): its workspaces, the loops of
 `apply_changes`, and the snapshot and review diff it keeps for each workspace.
 */
module SandboxService {
  import opened Prelude
  import opened CanonicalJson
  import opened Manifests
  import opened Ordering
  import opened Sandbox
  import Candidate
  import Text

  datatype Workspace = Workspace(mission: string, repository: string, baseRef: string, id: string, baseCommit: string)

  datatype State = State(base: Manifest, baseCommit: string, fingerprint: Option<string>, diff: Option<seq<Section>>)

  const MAX_REVIEW_DIFF := 24000

  const ABSENT := "deleted-or-absent"

  function Shorten(m: Manifest, p: string): string {
    if p in m then m[p] else ABSENT
  }

  /** One object of the diff material, in key order. */
  function Difference(base: Manifest, m: Manifest, p: string): Json {
    Obj([Field("after", Str(Shorten(m, p))), Field("before", Str(Shorten(base, p))), Field("path", Str(p))])
  }

  /** The object tells the path and what is recorded there, before and after. */
  lemma DifferenceHolds(base: Manifest, m: Manifest, p: string)
    ensures Holds(Difference(base, m, p), "path", Str(p))
    ensures Holds(Difference(base, m, p), "before", Str(if p in base then base[p] else "deleted-or-absent"))
    ensures Holds(Difference(base, m, p), "after", Str(if p in m then m[p] else "deleted-or-absent"))
  {
    var fields := Difference(base, m, p).fields;
    assert fields[0] in fields && fields[1] in fields && fields[2] in fields;
    assert "path"[0] != "before"[0] && "path"[0] != "after"[0] && "before"[0] != "after"[0];
  }

  function DiffJson(base: Manifest, m: Manifest, files: seq<string>): Json {
    Arr(seq(|files|, i requires 0 <= i < |files| => Difference(base, m, files[i])))
  }

  /** The snapshot constructor strips every path. */
  function Stripped(files: seq<string>): seq<string> {
    seq(|files|, i requires 0 <= i < |files| => Text.Strip(files[i]))
  }

  /** The joined sections, each rendered by `unified_diff`. */
  function DiffText(render: Section -> string, sections: seq<Section>): string {
    if sections == [] then "" else DiffText(render, sections[..|sections| - 1]) + render(sections[|sections| - 1])
  }

  class IsolatedRepositorySandbox {
    const sha: Sha
    const key: string
    const baseRef: string
    const render: Section -> string
    var disk: map<string, Tree>
    var states: map<string, State>

    ghost predicate Valid()
      reads this
    {
      states.Keys <= disk.Keys
    }

    constructor (sha: Sha, key: string, baseRef: string, render: Section -> string)
      ensures Valid() && states == map[] && disk == map[]
      ensures this.sha == sha && this.key == key && this.baseRef == baseRef && this.render == render
    {
      this.sha, this.key, this.baseRef, this.render, disk, states := sha, key, baseRef, render, map[], map[];
    }

    /** Copies the source into a new workspace; its manifest becomes the base of every later comparison. */
    method Prepare(mission: string, source: Tree, baseCommit: Result<string>, id: string) returns (r: Result<Workspace>)
      requires Valid() && id !in disk
      modifies this
      ensures Valid()
      ensures r.Ok? <==> Text.Strip(mission) != "" && baseCommit.Ok?
      ensures r.Ok? ==>
                && r.value == Workspace(mission, key, baseRef, id, baseCommit.value)
                && disk == old(disk)[id := source]
                && states == old(states)[id := State(ManifestOf(sha, source), baseCommit.value, None, None)]
      ensures r.Err? ==> disk == old(disk) && states == old(states)
    {
      if Text.Strip(mission) == "" {
        return Err(ValueError);
      }
      if baseCommit.Err? {
        return Err(baseCommit.error);
      }
      disk := disk[id := source];
      var base := ReadManifest(source);
      states := states[id := State(base, baseCommit.value, None, None)];
      r := Ok(Workspace(mission, key, baseRef, id, baseCommit.value));
    }

    /** The manifest walk. */
    method ReadManifest(t: Tree) returns (m: Manifest)
      ensures m == ManifestOf(sha, t)
    {
      m := map[];
      var todo := t.Keys;
      while todo != {}
        invariant todo <= t.Keys
        invariant m == map p | p in t && p !in todo && !Untracked(p) :: Entry(sha, t[p])
        decreases |todo|
      {
        var p :| p in todo;
        if !Untracked(p) {
          m := m[p := Entry(sha, t[p])];
        }
        todo := todo - {p};
      }
    }

    method ManifestDigest(m: Manifest) returns (d: string)
      ensures d == CanonicalDigest(sha, ManifestJson(m))
    {
      hide Dump, StrictlySorted, Below, Digest;
      var keys := Sort(m.Keys);
      var fields := [];
      assert keys[0..] == keys;
      for i := 0 to |keys|
        invariant fields + Fields(m, keys[i..]) == Fields(m, keys)
      {
        assert keys[i..][1..] == keys[i + 1..];
        assert Fields(m, keys[i..]) == [Field(keys[i], Str(m[keys[i]]))] + Fields(m, keys[i + 1..]);
        fields := fields + [Field(keys[i], Str(m[keys[i]]))];
      }
      assert fields + [] == fields;
      d := CanonicalDigest(sha, Obj(fields));
    }

    /** `_state_for`: the workspace must be known under exactly this identity. */
    predicate Known(w: Workspace)
      reads this
    {
      w.id in states && w.repository == key && w.baseRef == baseRef && w.baseCommit == states[w.id].baseCommit
    }

    /** The paths whose manifest entries differ from the base, sorted. */
    method ChangedFiles(base: Manifest, m: Manifest) returns (files: seq<string>)
      ensures files == Sorted(Changed(base, m))
    {
      hide Lookup;
      ghost var goal := Changed(base, m);
      var todo := base.Keys + m.Keys;
      var differing := {};
      while todo != {}
        invariant todo <= base.Keys + m.Keys
        invariant forall p :: p in differing <==> p in goal && p !in todo
        decreases |todo|
      {
        var p :| p in todo;
        if Lookup(base, p) != Lookup(m, p) {
          differing := differing + {p};
        }
        todo := todo - {p};
      }
      assert differing == goal;
      files := Sort(differing);
    }

    /** The identity material of the workspace as it is now; it becomes the current snapshot. */
    method Snapshot(w: Workspace) returns (r: Result<Candidate.Snapshot>)
      requires Valid()
      modifies this`states
      ensures Valid()
      ensures !old(Known(w)) ==> r.Err? && states == old(states)
      ensures old(Known(w)) ==>
                var m := ManifestOf(sha, disk[w.id]);
                var files := Sorted(Changed(old(states)[w.id].base, m));
                && states == old(states)[w.id := old(states)[w.id].(fingerprint := Some(CanonicalDigest(sha, ManifestJson(m))))]
                && (r.Ok? <==> "" !in Stripped(files))
                && (r.Ok? ==> r.value == Candidate.Snapshot(
                      w.id, key, baseRef, Stripped(files), CanonicalDigest(sha, DiffJson(old(states)[w.id].base, m, files)),
                      CanonicalDigest(sha, ManifestJson(m)), w.baseCommit))
    {
      hide Dump, Untracked, ManifestJson;
      if w.id !in states {
        return Err(KeyError);
      }
      var state := states[w.id];
      if w.repository != key || w.baseRef != baseRef || w.baseCommit != state.baseCommit {
        return Err(ValueError);
      }
      var m := ReadManifest(disk[w.id]);
      var files := ChangedFiles(state.base, m);
      var contentDigest := ManifestDigest(m);
      states := states[w.id := state.(fingerprint := Some(contentDigest))];
      if "" in Stripped(files) {
        return Err(ValueError);
      }
      r := Ok(Candidate.Snapshot(w.id, key, baseRef, Stripped(files), CanonicalDigest(sha, DiffJson(state.base, m, files)),
                                 contentDigest, state.baseCommit));
    }

    /** The review diff of the current snapshot: refused when the workspace has changed since. */
    method ReviewDiffOf(w: Workspace) returns (r: Result<seq<Section>>)
      requires Valid()
      ensures r.Ok? <==>
              && Known(w) && states[w.id].diff.Some?
              && states[w.id].fingerprint == Some(CanonicalDigest(sha, ManifestJson(ManifestOf(sha, disk[w.id]))))
      ensures r.Ok? ==> Some(r.value) == states[w.id].diff
    {
      if w.id !in states {
        return Err(KeyError);
      }
      var state := states[w.id];
      if w.repository != key || w.baseRef != baseRef || w.baseCommit != state.baseCommit {
        return Err(ValueError);
      }
      if state.fingerprint.None? {
        return Err(RuntimeError);
      }
      var m := ReadManifest(disk[w.id]);
      var current := ManifestDigest(m);
      if Some(current) != state.fingerprint || state.diff.None? {
        return Err(RuntimeError);
      }
      r := Ok(state.diff.value);
    }

    // ---------- apply_changes ----------

    /** The texts of all named paths before anything is written. */
    method ReadBefore(t: Tree, changes: seq<Change>) returns (r: Result<Texts>)
      ensures r.Ok? <==> (forall p :: p in Named(changes) ==> Safe(t, p)) && Reviewable(t, Named(changes))
      ensures r.Ok? ==> r.value.Keys == Named(changes) && r.value == TextsOf(t, Named(changes))
    {
      hide Safe, ReviewText;
      var before: Texts := map[];
      for i := 0 to |changes|
        invariant before.Keys == Named(changes[..i])
        invariant forall p :: p in before ==> Safe(t, p) && ReviewText(t, p) == Ok(before[p])
      {
        var path := changes[i].path;
        assert changes[i] in changes;
        NamedMore(changes, i);
        if !Safe(t, path) {
          return Err(ValueError);
        }
        if path !in before {
          var text := ReviewText(t, path);
          if text.Err? {
            return Err(text.error);
          }
          before := before[path := text.value];
        }
      }
      assert changes[..|changes|] == changes;
      r := Ok(before);
    }

    lemma NamedMore(changes: seq<Change>, i: nat)
      requires i < |changes|
      ensures Named(changes[..i + 1]) == Named(changes[..i]) + {changes[i].path}
    {
    }

    /** Writes and deletes in order; a failing change leaves those before it in place. */
    method WriteChanges(id: string, changes: seq<Change>) returns (r: Result<()>)
      requires Valid() && id in disk
      modifies this`disk
      ensures Valid() && disk.Keys == old(disk).Keys && forall other :: other in disk && other != id ==> disk[other] == old(disk)[other]
      ensures r.Ok? ==> ApplyAll(old(disk)[id], changes) == Ok(disk[id])
      ensures r.Err? ==> ApplyAll(old(disk)[id], changes).Err? && PartlyApplied(old(disk)[id], changes, disk[id])
    {
      hide ApplyOne, ApplyAll;
      ghost var t := disk[id];
      AppliedNone(t, changes);
      for i := 0 to |changes|
        invariant disk.Keys == old(disk).Keys && forall other :: other in disk && other != id ==> disk[other] == old(disk)[other]
        invariant ApplyAll(t, changes[..i]) == Ok(disk[id])
      {
        ApplyMore(t, changes, i);
        var written := ApplyOne(disk[id], changes[i]);
        if written.Err? {
          FailureStays(t, changes, i + 1);
          return Err(written.error);
        }
        disk := disk[id := written.value];
      }
      assert changes[..|changes|] == changes;
      r := Ok(());
    }

    ghost predicate PartlyApplied(t: Tree, changes: seq<Change>, u: Tree) {
      exists k :: 0 <= k <= |changes| && ApplyAll(t, changes[..k]) == Ok(u)
    }

    lemma AppliedNone(t: Tree, changes: seq<Change>)
      ensures ApplyAll(t, changes[..0]) == Ok(t)
    {
    }

    lemma {:induction false} FailureStays(t: Tree, changes: seq<Change>, k: nat)
      requires k <= |changes| && ApplyAll(t, changes[..k]).Err?
      ensures ApplyAll(t, changes).Err?
      decreases |changes| - k
    {
      hide ApplyAll;
      if k < |changes| {
        ApplyMore(t, changes, k);
        FailureStays(t, changes, k + 1);
      } else {
        assert changes[..k] == changes;
      }
    }

    predicate ReadAs(t: Tree, p: string, text: Option<string>) {
      Safe(t, p) && ReviewText(t, p) == Ok(text)
    }

    /** The texts of the paths read before, as they are now. */
    method ReadAfter(t: Tree, before: Texts) returns (r: Result<Texts>)
      ensures r.Ok? <==> (forall p :: p in before ==> Safe(t, p)) && Reviewable(t, before.Keys)
      ensures r.Ok? ==> r.value.Keys == before.Keys && r.value == TextsOf(t, before.Keys)
    {
      hide Safe, ReviewText;
      var after: Texts := map[];
      var todo := before.Keys;
      while todo != {}
        invariant todo <= before.Keys && forall p :: p in after <==> p in before && p !in todo
        invariant forall p :: p in after ==> ReadAs(t, p, after[p])
        decreases |todo|
      {
        var p :| p in todo;
        if !Safe(t, p) {
          return Err(ValueError);
        }
        var text := ReviewText(t, p);
        if text.Err? {
          return Err(text.error);
        }
        after := after[p := text.value];
        todo := todo - {p};
      }
      r := Ok(after);
    }

    /** One section per path whose text differs; a diff too large to review is refused. */
    method BuildReviewDiff(before: Texts, after: Texts) returns (r: Result<seq<Section>>)
      requires before.Keys == after.Keys
      ensures var sections := Sections(before, after, Sorted(before.Keys));
              r == if |DiffText(render, sections)| > 24000 then Err(ValueError) else Ok(sections)
    {
      hide StrictlySorted, Below;
      var paths := Sort(before.Keys);
      var sections := [];
      var text := "";
      for i := 0 to |paths|
        invariant sections == Sections(before, after, paths[..i]) && text == DiffText(render, sections)
      {
        assert paths[..i + 1][..i] == paths[..i];
        var p := paths[i];
        if before[p] != after[p] {
          var section := Section(p, before[p], after[p]);
          assert (sections + [section])[..|sections|] == sections;
          sections := sections + [section];
          text := text + render(section);
        }
      }
      assert paths[..|paths|] == paths;
      r := if |text| > MAX_REVIEW_DIFF then Err(ValueError) else Ok(sections);
    }

    /** Every named path can be reached and reviewed before and after, and the changes can be made. */
    ghost predicate Appliable(t: Tree, changes: seq<Change>)
    {
      && (forall p :: p in Named(changes) ==> Safe(t, p)) && Reviewable(t, Named(changes))
      && ApplyAll(t, changes).Ok?
      && var u := ApplyAll(t, changes).value;
         && (forall p :: p in Named(changes) ==> Safe(u, p)) && Reviewable(u, Named(changes))
         && |DiffText(render, ReviewDiff(t, u, Named(changes)))| <= 24000
    }

    /** The writing half of `apply_changes`: texts before, the changes, texts after, and the diff between them. */
    method WriteAndReview(id: string, changes: seq<Change>) returns (r: Result<seq<Section>>)
      requires Valid() && id in disk
      modifies this`disk
      ensures Valid() && disk.Keys == old(disk).Keys && forall other :: other in disk && other != id ==> disk[other] == old(disk)[other]
      ensures r.Ok? <==> Appliable(old(disk)[id], changes)
      ensures r.Ok? ==> ApplyAll(old(disk)[id], changes) == Ok(disk[id]) && r.value == ReviewDiff(old(disk)[id], disk[id], Named(changes))
      ensures PartlyApplied(old(disk)[id], changes, disk[id])
    {
      hide Safe, ReviewText, ApplyAll, Named, Sections, DiffText;
      ghost var t := disk[id];
      AppliedNone(t, changes);
      var before := ReadBefore(disk[id], changes);
      if before.Err? {
        return Err(before.error);
      }
      var written := WriteChanges(id, changes);
      if written.Err? {
        return Err(written.error);
      }
      AppliedAll(t, changes, disk[id]);
      var after := ReadAfter(disk[id], before.value);
      if after.Err? {
        return Err(after.error);
      }
      r := BuildReviewDiff(before.value, after.value);
    }

    /**
     Applies a change list and takes the snapshot. The snapshot's changed files are the sorted paths that differ from
     the base, and the kept review diff is the one between the workspace before and after this call.
     */
    method ApplyChanges(w: Workspace, changes: seq<Change>) returns (r: Result<Candidate.Snapshot>)
      requires Valid()
      modifies this
      ensures Valid()
      ensures !old(Known(w)) ==> r.Err? && disk == old(disk) && states == old(states)
      ensures old(Known(w)) ==> w.id in disk && PartlyApplied(old(disk)[w.id], changes, disk[w.id])
      ensures old(Known(w)) && !old(Appliable(disk[w.id], changes)) ==> r.Err? && states == old(states)
      ensures old(Known(w)) && old(Appliable(disk[w.id], changes)) ==>
                (r.Ok? <==> "" !in Stripped(Sorted(Changed(old(states)[w.id].base, ManifestOf(sha, disk[w.id])))))
      ensures r.Ok? ==> old(Known(w)) && Applied(old(disk)[w.id], old(states)[w.id].base, w, changes, r.value)
    {
      hide Safe, ReviewText, ApplyAll, Named, Sections, DiffText, ManifestJson, Untracked, Dump, Changed;
      if w.id !in states {
        return Err(KeyError);
      }
      if w.repository != key || w.baseRef != baseRef || w.baseCommit != states[w.id].baseCommit {
        return Err(ValueError);
      }
      var diff := WriteAndReview(w.id, changes);
      if diff.Err? {
        return Err(diff.error);
      }
      states := states[w.id := states[w.id].(diff := Some(diff.value))];
      r := Snapshot(w);
    }

    lemma AppliedAll(t: Tree, changes: seq<Change>, u: Tree)
      requires ApplyAll(t, changes) == Ok(u)
      ensures PartlyApplied(t, changes, u)
    {
      assert changes[..|changes|] == changes;
    }

    /** The state a successful `ApplyChanges` leaves, from tree t and base manifest base. */
    ghost predicate Applied(t: Tree, base: Manifest, w: Workspace, changes: seq<Change>, s: Candidate.Snapshot)
      reads this
    {
      && Appliable(t, changes) && w.id in disk && w.id in states
      && var u := ApplyAll(t, changes).value;
         && disk[w.id] == u && states[w.id].base == base
         && states[w.id].diff == Some(ReviewDiff(t, u, Named(changes)))
         && s.changedFiles == Stripped(Sorted(Changed(base, ManifestOf(sha, u))))
         && s.contentDigest == CanonicalDigest(sha, ManifestJson(ManifestOf(sha, u)))
         && s.diffDigest == CanonicalDigest(sha, DiffJson(base, ManifestOf(sha, u), Sorted(Changed(base, ManifestOf(sha, u)))))
         && states[w.id].fingerprint == Some(s.contentDigest)
         && s.workspaceId == w.id && s.repository == key && s.baseRef == baseRef && s.baseCommit == w.baseCommit
    }
  }
}
