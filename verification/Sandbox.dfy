/**
 Changes applied to an isolated workspace (src/ai_hq/delivery/repository_sandbox.py): the value-level meaning of
 a change list, of the snapshot's changed files and of the review diff, and how the last two relate.
 */
module Sandbox {
  import opened Prelude
  import opened Manifests
  import opened Ordering

  datatype Operation = Write(content: string) | Delete

  datatype Change = Change(path: string, operation: Operation)

  // ---------- applying changes ----------

  /** `_safe_target`: the path is relative and normalized and leads through no symbolic link. */
  predicate Safe(t: Tree, path: string) {
    NormalPath(path) && !ThroughLink(t, path)
  }

  function ApplyOne(t: Tree, c: Change): Result<Tree> {
    if !Safe(t, c.path) then Err(ValueError)
    else
      match c.operation
      case Write(content) =>
        if BelowFile(t, c.path) || IsDirectory(t, c.path) then Err(OsError)
        else Ok(t[c.path := Regular(Readable(content))])
      case Delete =>
        if IsDirectory(t, c.path) then Err(ValueError) else Ok(t - {c.path})
  }

  /**
   A change can be made exactly at a normal path that is no directory and neither is nor leads through a link; what is
   written must not lie below a file either.
   */
  lemma AppliesExactly(t: Tree, c: Change)
    ensures ApplyOne(t, c).Ok? <==>
            && c.path != "" && '\\' !in c.path && (forall part :: part in Parts(c.path) ==> part !in {"", ".", ".."})
            && (forall q :: q in t && t[q].Link? ==> q != c.path && !(q + "/" <= c.path))
            && (forall q :: q in t ==> !(c.path + "/" <= q))
            && (c.operation.Write? ==> forall q :: q in t ==> !(q + "/" <= c.path))
  {
    hide NormalPath, Under, Parts;
    NormalMeans(c.path);
    forall q | q in t
      ensures Under(q, c.path) <==> q + "/" <= c.path
      ensures Under(c.path, q) <==> c.path + "/" <= q
    {
      UnderMeans(q, c.path);
      UnderMeans(c.path, q);
    }
  }

  /** The changes in order; the first one that fails ends it. */
  function ApplyAll(t: Tree, changes: seq<Change>): Result<Tree> {
    if changes == [] then Ok(t)
    else
      var before := ApplyAll(t, changes[..|changes| - 1]);
      if before.Err? then before else ApplyOne(before.value, changes[|changes| - 1])
  }

  function Named(changes: seq<Change>): set<string> {
    set c | c in changes :: c.path
  }

  /** A path that no change names keeps its file. */
  lemma {:induction false} OnlyNamedChange(t: Tree, changes: seq<Change>, p: string)
    requires ApplyAll(t, changes).Ok? && p !in Named(changes)
    ensures var u := ApplyAll(t, changes).value;
            (p in u <==> p in t) && (p in t ==> u[p] == t[p])
  {
    hide ApplyOne;
    if changes != [] {
      var front, last := changes[..|changes| - 1], changes[|changes| - 1];
      assert Named(front) <= Named(changes) && last.path in Named(changes);
      OnlyNamedChange(t, front, p);
      OneChangesOne(ApplyAll(t, front).value, last, p);
    }
  }

  lemma OneChangesOne(t: Tree, c: Change, p: string)
    requires ApplyOne(t, c).Ok? && p != c.path
    ensures var u := ApplyOne(t, c).value;
            (p in u <==> p in t) && (p in t ==> u[p] == t[p])
  {
  }

  /** After the last change that names a path, the path holds what that change writes, or nothing if it deletes. */
  lemma {:induction false} LastChangeDecides(t: Tree, changes: seq<Change>, k: nat)
    requires ApplyAll(t, changes).Ok? && k < |changes| && forall j :: k < j < |changes| ==> changes[j].path != changes[k].path
    ensures var u, p := ApplyAll(t, changes).value, changes[k].path;
            match changes[k].operation
            case Write(content) => p in u && u[p] == Regular(Readable(content))
            case Delete => p !in u
    decreases |changes|
  {
    var front, last := changes[..|changes| - 1], changes[|changes| - 1];
    if k < |front| {
      hide ApplyOne;
      LastChangeDecides(t, front, k);
      OneChangesOne(ApplyAll(t, front).value, last, changes[k].path);
    }
  }

  /** A change is never made at or below a symbolic link, and leaves every link as it is. */
  lemma {:induction false} LinksStay(t: Tree, changes: seq<Change>, q: string)
    requires ApplyAll(t, changes).Ok? && q in t && t[q].Link?
    ensures var u := ApplyAll(t, changes).value; q in u && u[q] == t[q]
    ensures forall i :: 0 <= i < |changes| ==> changes[i].path != q && !(q + "/" <= changes[i].path)
  {
    hide NormalPath, BelowFile, IsDirectory;
    if changes != [] {
      var front, last := changes[..|changes| - 1], changes[|changes| - 1];
      LinksStay(t, front, q);
      assert !ThroughLink(ApplyAll(t, front).value, last.path);
      UnderMeans(q, last.path);
    }
  }

  /** Every path a successful change list names is relative, and no part of it is empty or steps up or in place. */
  lemma {:induction false} NamedPathsAreNormal(t: Tree, changes: seq<Change>, i: nat)
    requires ApplyAll(t, changes).Ok? && i < |changes|
    ensures changes[i].path != "" && '\\' !in changes[i].path
    ensures forall part :: part in Parts(changes[i].path) ==> part !in {"", ".", ".."}
    decreases |changes|
  {
    hide ThroughLink, BelowFile, IsDirectory, Parts;
    if i < |changes| - 1 {
      NamedPathsAreNormal(t, changes[..|changes| - 1], i);
    }
  }

  lemma ApplyMore(t: Tree, changes: seq<Change>, k: nat)
    requires k < |changes|
    ensures ApplyAll(t, changes[..k + 1])
            == if ApplyAll(t, changes[..k]).Err? then ApplyAll(t, changes[..k]) else ApplyOne(ApplyAll(t, changes[..k]).value, changes[k])
  {
    hide ApplyOne;
    assert changes[..k + 1][..k] == changes[..k];
  }

  // ---------- changed files ----------

  function Lookup(m: Manifest, p: string): Option<string> {
    if p in m then Some(m[p]) else None
  }

  function Changed(base: Manifest, m: Manifest): set<string> {
    set p | p in base.Keys + m.Keys && Lookup(base, p) != Lookup(m, p)
  }

  function FileAt(t: Tree, p: string): Option<File> {
    if p in t then Some(t[p]) else None
  }

  /** A tracked path counts as changed exactly when its file differs, up to a digest collision. */
  lemma ChangedMeansDifferent(sha: Sha, t: Tree, u: Tree, p: string)
    ensures p in Changed(ManifestOf(sha, t), ManifestOf(sha, u)) ==> !Untracked(p) && FileAt(t, p) != FileAt(u, p)
    ensures !Untracked(p) && FileAt(t, p) != FileAt(u, p) ==>
              || p in Changed(ManifestOf(sha, t), ManifestOf(sha, u))
              || (p in t && p in u && t[p].Regular? && u[p].Regular? && Collision(sha, t[p].content, u[p].content))
  {
    hide Untracked, Entry;
    var m, n := ManifestOf(sha, t), ManifestOf(sha, u);
    if !Untracked(p) && p in t && p in u && Entry(sha, t[p]) == Entry(sha, u[p]) {
      EntriesIdentify(sha, t[p], u[p]);
    }
  }

  /** Changed files are among the paths the changes name. */
  lemma ChangedAreNamed(sha: Sha, t: Tree, changes: seq<Change>)
    requires ApplyAll(t, changes).Ok?
    ensures Changed(ManifestOf(sha, t), ManifestOf(sha, ApplyAll(t, changes).value)) <= Named(changes)
  {
    hide ApplyAll, Named, Changed, ManifestOf;
    var u := ApplyAll(t, changes).value;
    forall p | p in Changed(ManifestOf(sha, t), ManifestOf(sha, u))
      ensures p in Named(changes)
    {
      ChangedMeansDifferent(sha, t, u, p);
      if p !in Named(changes) {
        OnlyNamedChange(t, changes, p);
      }
    }
  }

  // ---------- the review diff ----------

  /** Universal newlines: what reading a file as text makes of it. */
  function Norm(s: string): string {
    if s == "" then ""
    else if s[0] != '\r' then [s[0]] + Norm(s[1..])
    else if |s| > 1 && s[1] == '\n' then "\n" + Norm(s[2..])
    else "\n" + Norm(s[1..])
  }

  lemma {:induction false} NormIsIdentity(s: string)
    requires '\r' !in s
    ensures Norm(s) == s
  {
    if s != "" {
      assert s[0] in s;
      assert forall c :: c in s[1..] ==> c in s;
      NormIsIdentity(s[1..]);
      assert s == [s[0]] + s[1..];
    }
  }

  /** The first line break of any kind becomes a line feed, and the rest follows on its own. */
  lemma {:induction false} NormSplits(a: string, b: string)
    requires '\r' !in a
    ensures Norm(a + "\r\n" + b) == a + "\n" + Norm(b)
    ensures b == "" || b[0] != '\n' ==> Norm(a + "\r" + b) == a + "\n" + Norm(b)
    decreases |a|
  {
    if a == "" {
      assert ("" + "\r\n" + b)[2..] == b && ("" + "\r" + b)[1..] == b;
    } else {
      var t := a[1..];
      assert a[0] in a && a == [a[0]] + t;
      assert forall c :: c in t ==> c in a;
      NormSplits(t, b);
      assert (a + "\r\n" + b)[1..] == t + "\r\n" + b && (a + "\r" + b)[1..] == t + "\r" + b;
    }
  }

  /** `_review_text`: None for a missing file; directories, links and files that are not UTF-8 are refused. */
  function ReviewText(t: Tree, p: string): Result<Option<string>> {
    if IsDirectory(t, p) then Err(ValueError)
    else if p !in t then Ok(None)
    else if t[p].Regular? && t[p].content.Readable? then Ok(Some(Norm(t[p].content.text)))
    else Err(ValueError)
  }

  /** A path has a text exactly when it is a readable regular file or nothing at all, neither file nor directory. */
  lemma ReviewTextExactly(t: Tree, p: string)
    ensures ReviewText(t, p).Ok? <==>
            && (forall q :: q in t ==> !(p + "/" <= q))
            && (p in t ==> t[p].Regular? && t[p].content.Readable?)
    ensures ReviewText(t, p).Ok? ==>
              && (ReviewText(t, p).value.None? <==> p !in t)
              && (p in t ==> ReviewText(t, p).value == Some(Norm(t[p].content.text)))
  {
    hide Norm, Under;
    forall q | q in t
      ensures Under(p, q) <==> p + "/" <= q
    {
      UnderMeans(p, q);
    }
  }

  datatype Section = Section(path: string, was: Option<string>, becomes: Option<string>)

  predicate IsBreak(c: char) {
    || '\n' <= c <= '\r' || '\U{1c}' <= c <= '\U{1e}' || c == '\U{85}' || c == '\U{2028}' || c == '\U{2029}'
  }

  lemma BreaksAre(c: char)
    ensures IsBreak(c) <==> c as int in {10, 11, 12, 13, 28, 29, 30, 133, 8232, 8233}
  {
  }

  /** The length of the first line with its break. */
  function LineLength(s: string): (n: nat)
    requires s != ""
    ensures 0 < n <= |s|
    ensures n < |s| ==> IsBreak(s[n - 1]) && !(s[n - 1] == '\r' && s[n] == '\n')
    ensures forall k :: 0 <= k < n - 1 && IsBreak(s[k]) ==> k == n - 2 && s[k] == '\r' && s[k + 1] == '\n'
  {
    if s[0] == '\r' && |s| > 1 && s[1] == '\n' then 2
    else if IsBreak(s[0]) || |s| == 1 then 1
    else 1 + LineLength(s[1..])
  }

  /** `splitlines(keepends=True)` */
  function Lines(s: string): seq<string> {
    if s == "" then [] else [s[..LineLength(s)]] + Lines(s[LineLength(s)..])
  }

  function Joined(lines: seq<string>): string {
    if lines == [] then "" else lines[0] + Joined(lines[1..])
  }

  lemma {:induction false} LinesJoin(s: string)
    ensures Joined(Lines(s)) == s
    decreases |s|
  {
    if s != "" {
      LinesJoin(s[LineLength(s)..]);
      assert Lines(s)[1..] == Lines(s[LineLength(s)..]);
    }
  }

  function Shown(text: Option<string>): string {
    if text.None? then "" else text.value
  }

  /** A section holds diff lines exactly when the line lists differ; a missing file has no lines. */
  predicate Visible(s: Section) {
    Lines(Shown(s.was)) != Lines(Shown(s.becomes))
  }

  lemma VisibleWhenTextsDiffer(s: Section)
    ensures Visible(s) <==> Shown(s.was) != Shown(s.becomes)
  {
    LinesJoin(Shown(s.was));
    LinesJoin(Shown(s.becomes));
  }

  type Texts = map<string, Option<string>>

  /** `_build_review_diff`: one section per path whose text differs, in path order. */
  function Sections(before: Texts, after: Texts, paths: seq<string>): seq<Section>
    requires forall p :: p in paths ==> p in before && p in after
  {
    if paths == [] then []
    else
      var p := paths[|paths| - 1];
      var earlier := Sections(before, after, paths[..|paths| - 1]);
      if before[p] == after[p] then earlier else earlier + [Section(p, before[p], after[p])]
  }

  ghost predicate Reviewable(t: Tree, named: set<string>) {
    forall p :: p in named ==> ReviewText(t, p).Ok?
  }

  ghost function TextsOf(t: Tree, named: set<string>): Texts
    requires Reviewable(t, named)
  {
    map p | p in named :: ReviewText(t, p).value
  }

  ghost function ReviewDiff(t: Tree, u: Tree, named: set<string>): seq<Section>
    requires Reviewable(t, named) && Reviewable(u, named)
  {
    Sections(TextsOf(t, named), TextsOf(u, named), Sorted(named))
  }

  lemma {:induction false} SectionsAre(before: Texts, after: Texts, paths: seq<string>, s: Section)
    requires forall p :: p in paths ==> p in before && p in after
    ensures s in Sections(before, after, paths) <==>
            s.path in paths && before[s.path] != after[s.path] && s == Section(s.path, before[s.path], after[s.path])
    decreases |paths|
  {
    if paths != [] {
      var front, last := paths[..|paths| - 1], paths[|paths| - 1];
      assert paths == front + [last];
      SectionsAre(before, after, front, s);
    }
  }

  /** The paths whose section shows something. */
  ghost function Covered(t: Tree, u: Tree, named: set<string>): set<string>
    requires Reviewable(t, named) && Reviewable(u, named)
  {
    set s | s in ReviewDiff(t, u, named) && Visible(s) :: s.path
  }

  lemma CoveredMeans(t: Tree, u: Tree, named: set<string>, p: string)
    requires Reviewable(t, named) && Reviewable(u, named)
    ensures p in Covered(t, u, named) <==>
            p in named && Shown(ReviewText(t, p).value) != Shown(ReviewText(u, p).value)
  {
    hide Sections, Lines, ReviewText, Shown, Visible;
    var before, after := TextsOf(t, named), TextsOf(u, named);
    if p in named {
      var s := Section(p, before[p], after[p]);
      SectionsAre(before, after, Sorted(named), s);
      VisibleWhenTextsDiffer(s);
      if p in Covered(t, u, named) {
        var s' :| s' in ReviewDiff(t, u, named) && Visible(s') && s'.path == p;
        SectionsAre(before, after, Sorted(named), s');
      }
    } else if p in Covered(t, u, named) {
      var s' :| s' in ReviewDiff(t, u, named) && Visible(s') && s'.path == p;
      SectionsAre(before, after, Sorted(named), s');
    }
  }

  /** The file's text as stored, empty for a missing file. */
  function Stored(t: Tree, p: string): string {
    if p in t && t[p].Regular? && t[p].content.Readable? then t[p].content.text else ""
  }

  /** The path is as it was; or it is tracked, and its text differs in more than line endings; or neither. */
  predicate Presentable(t: Tree, u: Tree, p: string) {
    FileAt(t, p) == FileAt(u, p) || (!Untracked(p) <==> Norm(Stored(t, p)) != Norm(Stored(u, p)))
  }

  ghost predicate FileCollision(sha: Sha, t: Tree, u: Tree, named: set<string>) {
    exists p :: p in named && p in t && p in u && t[p].Regular? && u[p].Regular? && Collision(sha, t[p].content, u[p].content)
  }

  lemma ShownText(t: Tree, p: string)
    requires ReviewText(t, p).Ok?
    ensures Shown(ReviewText(t, p).value) == Norm(Stored(t, p))
    ensures FileAt(t, p) == if ReviewText(t, p).value.None? then None else Some(Regular(Readable(Stored(t, p))))
  {
  }

  lemma SameFileSameText(t: Tree, u: Tree, p: string)
    requires FileAt(t, p) == FileAt(u, p)
    ensures Stored(t, p) == Stored(u, p)
  {
  }

  /**
   For any change list applied once: the changed files are exactly the paths the review diff shows if and only if
   every named path whose file differs is tracked just when its text differs in more than line endings. (An empty and
   a missing file have the same text.)
   */
  lemma DiffShowsChangedFiles(sha: Sha, t: Tree, changes: seq<Change>)
    requires ApplyAll(t, changes).Ok?
    requires Reviewable(t, Named(changes)) && Reviewable(ApplyAll(t, changes).value, Named(changes))
    requires !FileCollision(sha, t, ApplyAll(t, changes).value, Named(changes))
    ensures var u := ApplyAll(t, changes).value;
            Changed(ManifestOf(sha, t), ManifestOf(sha, u)) == Covered(t, u, Named(changes)) <==>
            forall p :: p in Named(changes) ==> Presentable(t, u, p)
  {
    hide ApplyAll, Named, Changed, ManifestOf, Covered, ReviewText, Norm, Untracked, Stored, Shown;
    var u := ApplyAll(t, changes).value;
    var named := Named(changes);
    var changed, covered := Changed(ManifestOf(sha, t), ManifestOf(sha, u)), Covered(t, u, named);
    ChangedAreNamed(sha, t, changes);
    forall p
      ensures p !in named ==> p !in changed && p !in covered
      ensures p in named ==> ((p in changed <==> p in covered) <==> Presentable(t, u, p))
    {
      CoveredMeans(t, u, named, p);
      if p in named {
        ChangedMeansDifferent(sha, t, u, p);
        ShownText(t, p);
        ShownText(u, p);
        if FileAt(t, p) == FileAt(u, p) {
          SameFileSameText(t, u, p);
        }
      }
    }
    assert changed == covered <==> forall p :: p in named ==> (p in changed <==> p in covered);
  }

  /** Without carriage returns, untracked paths, or a swap of missing and empty, nothing changed is left unshown. */
  lemma PlainChangesAreShown(sha: Sha, t: Tree, changes: seq<Change>)
    requires ApplyAll(t, changes).Ok?
    requires Reviewable(t, Named(changes)) && Reviewable(ApplyAll(t, changes).value, Named(changes))
    requires !FileCollision(sha, t, ApplyAll(t, changes).value, Named(changes))
    requires var u := ApplyAll(t, changes).value;
             forall p :: p in Named(changes) ==>
               && !Untracked(p) && '\r' !in Stored(t, p) && '\r' !in Stored(u, p)
               && (FileAt(t, p) != FileAt(u, p) ==> Stored(t, p) != Stored(u, p))
    ensures var u := ApplyAll(t, changes).value;
            Changed(ManifestOf(sha, t), ManifestOf(sha, u)) == Covered(t, u, Named(changes))
  {
    hide ApplyAll, Named, Changed, ManifestOf, Covered, ReviewText, Norm, Untracked, Stored;
    var u := ApplyAll(t, changes).value;
    forall p | p in Named(changes)
      ensures Presentable(t, u, p)
    {
      NormIsIdentity(Stored(t, p));
      NormIsIdentity(Stored(u, p));
    }
    DiffShowsChangedFiles(sha, t, changes);
  }

  /** A change of line endings only is a changed file that the review diff does not show. */
  lemma LineEndingsAreNotShown(sha: Sha)
    requires !Collision(sha, Readable("\r"), Readable("\n"))
    ensures var t, u := map["a" := Regular(Readable("\r"))], map["a" := Regular(Readable("\n"))];
            && ApplyAll(t, [Change("a", Write("\n"))]) == Ok(u)
            && Changed(ManifestOf(sha, t), ManifestOf(sha, u)) == {"a"}
            && Reviewable(t, {"a"}) && Reviewable(u, {"a"}) && Covered(t, u, {"a"}) == {}
  {
    hide ManifestOf, Changed, Covered, Untracked, Parts, Norm;
    var t, u := map["a" := Regular(Readable("\r"))], map["a" := Regular(Readable("\n"))];
    var change := Change("a", Write("\n"));
    assert [change][..0] == [];
    OneLetterPath();
    assert Safe(t, "a") && !BelowFile(t, "a") && !IsDirectory(t, "a") && t["a" := Regular(Readable("\n"))] == u;
    assert ApplyAll(t, [change]) == ApplyOne(t, change) == Ok(u);
    forall p
      ensures p in Changed(ManifestOf(sha, t), ManifestOf(sha, u)) <==> p == "a"
      ensures p !in Covered(t, u, {"a"})
    {
      ChangedMeansDifferent(sha, t, u, p);
      CoveredMeans(t, u, {"a"}, p);
    }
  }

  lemma OneLetterPath()
    ensures NormalPath("a") && !Untracked("a") && Norm("\r") == Norm("\n") == "\n"
  {
    assert "a"[1..] == "" && Parts("") == [""];
    assert ['a'] + "" == "a" && [""][1..] == [];
    assert Parts("a") == ["a"];
    assert "\n"[1..] == "" && "\r"[1..] == "";
  }
}
