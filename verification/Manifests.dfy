/**
 File trees, their manifests, and digests of canonical text (src/ai_hq/delivery/repository_sandbox.py,
 src/ai_hq/code_changes/candidate_store.py). SHA-256 is an arbitrary function to 64 hexadecimal digits; where a
 result depends on digests identifying what they digest, it exhibits a collision as the only other possibility.
 */
module Manifests {
  import opened CanonicalJson
  import opened Ordering
  import Text

  /** File content: text, stored as its UTF-8 encoding, or bytes that are not UTF-8. */
  datatype Content = Readable(text: string) | Binary(bytes: seq<bv8>)

  datatype File = Regular(content: Content) | Link(target: string)

  type Tree = map<string, File>

  type Hex64 = s: string | Text.IsHex(s, 64) witness seq(64, _ => '0')

  type Sha = Content -> Hex64

  /** Two contents that the digest function does not tell apart. */
  predicate Collision(sha: Sha, a: Content, b: Content) {
    a != b && sha(a) == sha(b)
  }

  function Digest(sha: Sha, c: Content): (d: string)
    ensures |d| == 71 && d[..7] == "sha256:" && d[7..] == sha(c)
  {
    "sha256:" + sha(c)
  }

  predicate IsDigest(s: string) {
    |s| == 71 && s[..7] == "sha256:" && Text.IsHex(s[7..], 64)
  }

  lemma DigestMeans(d: string)
    ensures IsDigest(d) <==> |d| == 7 + 64 && "sha256:" <= d && forall i :: 7 <= i < |d| ==> d[i] in "0123456789abcdef"
  {
    if |d| == 71 {
      assert "sha256:" <= d <==> d[..7] == "sha256:";
      forall i | 7 <= i < 71
        ensures Text.IsHexDigit(d[7..][i - 7]) <==> d[i] in "0123456789abcdef"
      {
        Text.HexAlphabet(d[i]);
      }
    }
  }

  /** `_canonical_digest`: the digest of the ASCII canonical text. */
  function CanonicalDigest(sha: Sha, j: Json): string {
    Digest(sha, Readable(Dump(true, j)))
  }

  lemma DigestsIdentify(sha: Sha, a: Content, b: Content)
    requires Digest(sha, a) == Digest(sha, b)
    ensures a == b || Collision(sha, a, b)
  {
  }

  /** Equal canonical digests belong to equal values, or a collision of their texts has been found. */
  lemma CanonicalDigestsIdentify(sha: Sha, a: Json, b: Json)
    requires CanonicalDigest(sha, a) == CanonicalDigest(sha, b)
    ensures a == b || Collision(sha, Readable(Dump(true, a)), Readable(Dump(true, b)))
  {
    hide Dump, Digest;
    DigestsIdentify(sha, Readable(Dump(true, a)), Readable(Dump(true, b)));
    if Dump(true, a) == Dump(true, b) {
      TextIsInjective(a, b);
    }
  }

  // ---------- paths in a tree ----------

  /** p lies inside the directory dir. */
  predicate Under(dir: string, p: string) {
    |dir| < |p| && p[..|dir|] == dir && p[|dir|] == '/'
  }

  lemma UnderMeans(dir: string, p: string)
    ensures Under(dir, p) <==> dir + "/" <= p
  {
    if dir + "/" <= p {
      assert p[..|dir|] == (dir + "/")[..|dir|] == dir && p[|dir|] == (dir + "/")[|dir|];
    }
  }

  predicate IsDirectory(t: Tree, p: string) {
    exists q | q in t.Keys :: Under(p, q)
  }

  /** The path is a symbolic link or leads through one. */
  predicate ThroughLink(t: Tree, p: string) {
    exists q | q in t.Keys :: t[q].Link? && (q == p || Under(q, p))
  }

  /** Some parent of the path is a regular file. */
  predicate BelowFile(t: Tree, p: string) {
    exists q | q in t.Keys :: t[q].Regular? && Under(q, p)
  }

  function Parts(p: string): (parts: seq<string>)
    ensures parts != []
  {
    if p == "" then [""]
    else
      var rest := Parts(p[1..]);
      if p[0] == '/' then [""] + rest else [[p[0]] + rest[0]] + rest[1..]
  }

  function Slashed(parts: seq<string>): string
    requires parts != []
  {
    if |parts| == 1 then parts[0] else parts[0] + "/" + Slashed(parts[1..])
  }

  /** The parts of a path hold no slash, and a slash between each two of them gives the path. */
  lemma {:induction false} PartsAreThePath(p: string)
    ensures Slashed(Parts(p)) == p && forall part :: part in Parts(p) ==> '/' !in part
  {
    if p != "" {
      var rest := Parts(p[1..]);
      PartsAreThePath(p[1..]);
      if p[0] == '/' {
        assert ([""] + rest)[1..] == rest;
        assert Slashed([""] + rest) == "" + "/" + Slashed(rest);
      } else {
        var first := [p[0]] + rest[0];
        assert rest[0] in rest && '/' !in first;
        assert forall part :: part in rest[1..] ==> part in rest;
        assert ([first] + rest[1..])[1..] == rest[1..];
        assert Slashed([first] + rest[1..]) == [p[0]] + Slashed(rest) by {
          if |rest| > 1 {
            assert first + "/" + Slashed(rest[1..]) == [p[0]] + (rest[0] + "/" + Slashed(rest[1..]));
          }
        }
      }
      assert p == [p[0]] + p[1..];
    }
  }

  /** A path without slashes is its own only part. */
  lemma {:induction false} FirstIsWhole(p: string)
    ensures Parts(p) == [p] <==> '/' !in p
  {
    PartsAreThePath(p);
    if '/' !in p && p != "" {
      assert p == [p[0]] + p[1..];
      FirstIsWhole(p[1..]);
    }
  }

  /** Relative, normalized, with forward slashes. */
  predicate NormalPath(p: string) {
    && p != "" && (forall i :: 0 <= i < |p| ==> p[i] != '\\')
    && (forall i :: 0 <= i < |Parts(p)| ==> Parts(p)[i] !in {"", ".", ".."})
  }

  // ---------- manifests ----------

  /** Whether a path lies inside a `.git` directory, which the manifest walk does not enter. */
  predicate Untracked(path: string) {
    ".git/" <= path || exists i :: 0 <= i < |path| && "/.git/" <= path[i..]
  }

  /** Whether the text up to the first slash is `name`, and there is a slash. */
  lemma {:induction false} FirstPart(p: string, name: string)
    requires '/' !in name
    ensures name + "/" <= p <==> |Parts(p)| > 1 && Parts(p)[0] == name
    decreases |p|
  {
    if p != "" {
      if p[0] == '/' {
        if name != "" {
          assert (name + "/")[0] == name[0] && name[0] in name;
        }
      } else if name == "" {
        assert (name + "/")[0] == '/';
      } else {
        assert (name + "/")[0] == name[0];
        assert name == [name[0]] + name[1..] && p == [p[0]] + p[1..];
        assert forall c :: c in name[1..] ==> c in name;
        FirstPart(p[1..], name[1..]);
        assert (name + "/")[1..] == name[1..] + "/";
        assert name + "/" <= p <==> name[0] == p[0] && name[1..] + "/" <= p[1..];
        assert Parts(p)[0] == name <==> name[0] == p[0] && Parts(p[1..])[0] == name[1..];
      }
    }
  }

  /** The first part of a path is `name` exactly when the path is `name` or starts with `name` and a slash. */
  lemma StartsIn(p: string, name: string)
    requires '/' !in name
    ensures Parts(p)[0] == name <==> p == name || name + "/" <= p
  {
    hide Parts;
    FirstPart(p, name);
    FirstIsWhole(p);
    if |Parts(p)| == 1 {
      PartsAreThePath(p);
      assert Slashed(Parts(p)) == Parts(p)[0];
    }
  }

  lemma NormalMeans(p: string)
    ensures NormalPath(p) <==> p != "" && '\\' !in p && forall part :: part in Parts(p) ==> part !in {"", ".", ".."}
  {
    hide Parts;
    var parts := Parts(p);
    NoneIn(p, '\\');
    forall part | part in parts
      ensures exists i :: 0 <= i < |parts| && parts[i] == part
    {
    }
    forall i | 0 <= i < |parts|
      ensures parts[i] in parts
    {
    }
  }

  lemma NoneIn(s: string, c: char)
    ensures c !in s <==> forall i :: 0 <= i < |s| ==> s[i] != c
  {
  }

  predicate GitInside(p: string) {
    exists i :: 0 <= i < |p| && "/.git/" <= p[i..]
  }

  lemma GitInsideStep(p: string)
    requires p != ""
    ensures GitInside(p) <==> (p[0] == '/' && ".git/" <= p[1..]) || GitInside(p[1..])
  {
    var t := p[1..];
    assert "/.git/" <= p[0..] <==> p[0] == '/' && ".git/" <= t by {
      assert "/.git/" == ['/'] + ".git/" && p[0..] == [p[0]] + t;
    }
    forall i | 0 < i < |p|
      ensures p[i..] == t[i - 1..]
    {
    }
    if j :| 0 <= j < |t| && "/.git/" <= t[j..] {
      assert p[j + 1..] == t[j..];
    }
  }

  predicate HasGit(parts: seq<string>) {
    exists k :: 0 <= k < |parts| - 1 && parts[k] == ".git"
  }

  lemma HasGitStep(parts: seq<string>)
    requires parts != []
    ensures HasGit(parts) <==> (|parts| > 1 && parts[0] == ".git") || HasGit(parts[1..])
  {
    if k :| 0 <= k < |parts| - 1 && parts[k] == ".git" {
      if k > 0 {
        assert parts[1..][k - 1] == ".git";
      }
    }
    if k :| 0 <= k < |parts[1..]| - 1 && parts[1..][k] == ".git" {
      assert parts[k + 1] == ".git";
    }
  }

  lemma NoGit()
    ensures !GitInside("") && !HasGit([])
  {
  }

  /** The parts after the first one begin after the slashes. */
  lemma {:induction false} InnerParts(p: string)
    ensures GitInside(p) <==> HasGit(Parts(p)[1..])
  {
    hide GitInside, HasGit;
    if p == "" {
      NoGit();
    } else {
      var rest := Parts(p[1..]);
      GitInsideStep(p);
      InnerParts(p[1..]);
      if p[0] == '/' {
        FirstPart(p[1..], ".git");
        assert Parts(p)[1..] == rest;
        HasGitStep(rest);
      } else {
        assert Parts(p)[1..] == rest[1..];
      }
    }
  }

  /** A path is untracked exactly when a part before its last one is `.git`. */
  lemma UntrackedMeans(p: string)
    ensures Untracked(p) <==> exists k :: 0 <= k < |Parts(p)| - 1 && Parts(p)[k] == ".git"
  {
    FirstPart(p, ".git");
    InnerParts(p);
    HasGitStep(Parts(p));
  }

  function Entry(sha: Sha, f: File): string {
    match f
    case Regular(c) => Digest(sha, c)
    case Link(target) => "symlink:" + target
  }

  type Manifest = map<string, string>

  function ManifestOf(sha: Sha, t: Tree): Manifest {
    map p | p in t && !Untracked(p) :: Entry(sha, t[p])
  }

  /** A manifest as the JSON object `json.dumps(..., sort_keys=True)` writes. */
  ghost function Fields(m: Manifest, keys: seq<string>): seq<Field>
    requires forall k :: k in keys ==> k in m
  {
    if keys == [] then [] else [Field(keys[0], Str(m[keys[0]]))] + Fields(m, keys[1..])
  }

  ghost function ManifestJson(m: Manifest): Json {
    Obj(Fields(m, Sorted(m.Keys)))
  }

  lemma {:induction false} FieldsAt(m: Manifest, keys: seq<string>)
    requires forall k :: k in keys ==> k in m
    ensures |Fields(m, keys)| == |keys|
    ensures forall i :: 0 <= i < |keys| ==> Fields(m, keys)[i] == Field(keys[i], Str(m[keys[i]]))
  {
    if keys != [] {
      FieldsAt(m, keys[1..]);
    }
  }

  /** A manifest is determined by its JSON object. */
  lemma ManifestJsonIsInjective(m: Manifest, n: Manifest)
    requires ManifestJson(m) == ManifestJson(n)
    ensures m == n
  {
    var a, b := Sorted(m.Keys), Sorted(n.Keys);
    FieldsAt(m, a);
    FieldsAt(n, b);
    forall i | 0 <= i < |a|
      ensures a[i] == b[i] && m[a[i]] == n[b[i]]
    {
      assert Fields(m, a)[i] == Fields(n, b)[i];
    }
    assert a == b;
    forall k
      ensures k in m <==> k in n
      ensures k in m ==> m[k] == n[k]
    {
      assert k in m <==> k in a;
      assert k in n <==> k in b;
    }
  }

  /** Equal content digests belong to equal manifests, or a collision has been found. */
  lemma ManifestDigestsIdentify(sha: Sha, m: Manifest, n: Manifest)
    requires CanonicalDigest(sha, ManifestJson(m)) == CanonicalDigest(sha, ManifestJson(n))
    ensures m == n || Collision(sha, Readable(Dump(true, ManifestJson(m))), Readable(Dump(true, ManifestJson(n))))
  {
    hide ManifestJson;
    CanonicalDigestsIdentify(sha, ManifestJson(m), ManifestJson(n));
    if ManifestJson(m) == ManifestJson(n) {
      ManifestJsonIsInjective(m, n);
    }
  }

  /** Equal manifest entries belong to equal files, or a collision has been found. */
  lemma EntriesIdentify(sha: Sha, f: File, g: File)
    requires Entry(sha, f) == Entry(sha, g)
    ensures f == g || (f.Regular? && g.Regular? && Collision(sha, f.content, g.content))
  {
    if f.Regular? && g.Regular? {
      DigestsIdentify(sha, f.content, g.content);
    } else if f.Regular? {
      KindsDiffer(sha, f.content, g.target);
    } else if g.Regular? {
      KindsDiffer(sha, g.content, f.target);
    } else {
      assert Entry(sha, f)[8..] == f.target && Entry(sha, g)[8..] == g.target;
    }
  }

  lemma KindsDiffer(sha: Sha, c: Content, target: string)
    ensures Digest(sha, c) != "symlink:" + target
  {
    assert Digest(sha, c)[1] == "sha256:"[1];
    assert ("symlink:" + target)[1] == 'y';
  }
}
