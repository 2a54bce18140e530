/**
 The bounded source context given to the developer model (`RepositoryContextProvider.build` in
 src/ai_hq/code_changes/context.py): ranking of the eligible files and greedy packing of whole files.
 */
module Context {
  import opened Prelude
  import opened Ordering
  import Text

  /** One path of the source tree with what the filters and the scoring say of it. */
  datatype Source = Source(path: string, eligible: bool, content: Option<string>, sensitive: bool, score: int)

  datatype Ranked = Ranked(score: int, path: string, content: string)

  datatype Limits = Limits(maxFiles: int, maxCharsPerFile: int, maxTotalChars: int)

  // ---------- ranking ----------

  predicate Kept(s: Source) {
    s.eligible && s.content.Some? && !s.sensitive && s.score > 0
  }

  function Candidates(sources: seq<Source>): multiset<Ranked> {
    if sources == [] then multiset{}
    else
      var s := sources[|sources| - 1];
      Candidates(sources[..|sources| - 1])
      + (if Kept(s) then multiset{Ranked(s.score, s.path, s.content.value)} else multiset{})
  }

  /** The order of the tuples (-score, path, content). */
  predicate Ahead(a: Ranked, b: Ranked) {
    || a.score > b.score
    || (a.score == b.score && (Below(a.path, b.path) || (a.path == b.path && Below(a.content, b.content))))
  }

  ghost predicate InOrder(ranked: seq<Ranked>) {
    forall i, j :: 0 <= i < j < |ranked| ==> !Ahead(ranked[j], ranked[i])
  }

  lemma AheadTransitive(a: Ranked, b: Ranked, c: Ranked)
    requires !Ahead(b, a) && !Ahead(c, b)
    ensures !Ahead(c, a)
  {
    hide Below;
    if Ahead(c, a) {
      Total(a.path, b.path);
      Total(b.path, c.path);
      Total(a.content, b.content);
      Total(b.content, c.content);
      Chain(a.path, b.path, c.path);
      Chain(a.content, b.content, c.content);
    }
  }

  lemma Chain(a: string, b: string, c: string)
    requires (a == b || Below(a, b)) && (b == c || Below(b, c))
    ensures (a == c || Below(a, c)) && !Below(c, a)
  {
  }

  lemma Asymmetric(a: Ranked, b: Ranked)
    ensures !(Ahead(a, b) && Ahead(b, a))
  {
    hide Below;
    if Ahead(a, b) && Ahead(b, a) {
      if Below(a.path, b.path) && Below(b.path, a.path) {
        Transitive(a.path, b.path, a.path);
      } else if a.path == b.path && Below(a.content, b.content) && Below(b.content, a.content) {
        Transitive(a.content, b.content, a.content);
      }
      Irreflexive(a.path);
      Irreflexive(a.content);
    }
  }

  function Place(ranked: seq<Ranked>, x: Ranked): seq<Ranked> {
    if ranked == [] || Ahead(x, ranked[0]) then [x] + ranked else [ranked[0]] + Place(ranked[1..], x)
  }

  lemma {:induction false} PlaceAdds(ranked: seq<Ranked>, x: Ranked)
    ensures multiset(Place(ranked, x)) == multiset(ranked) + multiset{x}
  {
    hide Ahead;
    if ranked != [] && !Ahead(x, ranked[0]) {
      PlaceAdds(ranked[1..], x);
      assert ranked == [ranked[0]] + ranked[1..];
    }
  }

  lemma {:induction false} PlaceKeepsOrder(ranked: seq<Ranked>, x: Ranked)
    requires InOrder(ranked)
    ensures InOrder(Place(ranked, x))
  {
    hide Ahead;
    if ranked != [] {
      if Ahead(x, ranked[0]) {
        Asymmetric(x, ranked[0]);
        forall j | 0 <= j < |ranked|
          ensures !Ahead(ranked[j], x)
        {
          if j > 0 {
            AheadTransitive(x, ranked[0], ranked[j]);
          }
        }
      } else {
        PlaceKeepsOrder(ranked[1..], x);
        PlaceAdds(ranked[1..], x);
        var rest := Place(ranked[1..], x);
        forall j | 0 <= j < |rest|
          ensures !Ahead(rest[j], ranked[0])
        {
          NotAheadOfFirst(ranked, x, rest, j);
        }
      }
    }
  }

  lemma NotAheadOfFirst(ranked: seq<Ranked>, x: Ranked, rest: seq<Ranked>, j: nat)
    requires ranked != [] && InOrder(ranked) && !Ahead(x, ranked[0]) && j < |rest|
    requires multiset(rest) == multiset(ranked[1..]) + multiset{x}
    ensures !Ahead(rest[j], ranked[0])
  {
    hide Ahead;
    assert rest[j] in multiset(rest);
    if rest[j] != x {
      assert rest[j] in ranked[1..];
      var k :| 0 <= k < |ranked[1..]| && ranked[1..][k] == rest[j];
      assert ranked[k + 1] == rest[j];
    }
  }

  lemma {:induction false} CandidatesAre(sources: seq<Source>, x: Ranked)
    ensures x in Candidates(sources) <==>
            x.score > 0 && Source(x.path, true, Some(x.content), false, x.score) in sources
  {
    if sources != [] {
      var front, last := sources[..|sources| - 1], sources[|sources| - 1];
      CandidatesAre(front, x);
      assert sources == front + [last];
    }
  }

  lemma InOrderMeans(ranked: seq<Ranked>, i: nat, j: nat)
    requires InOrder(ranked) && i < j < |ranked|
    ensures ranked[i].score >= ranked[j].score
    ensures ranked[i].score == ranked[j].score ==> ranked[i].path == ranked[j].path || Below(ranked[i].path, ranked[j].path)
  {
    assert !Ahead(ranked[j], ranked[i]);
    Total(ranked[i].path, ranked[j].path);
  }

  /** The eligible, readable, not sensitive files with a positive score, best score first, then by path. */
  method Rank(sources: seq<Source>) returns (ranked: seq<Ranked>)
    ensures InOrder(ranked) && multiset(ranked) == Candidates(sources)
    ensures forall x :: x in ranked <==> x.score > 0 && Source(x.path, true, Some(x.content), false, x.score) in sources
    ensures forall i, j :: 0 <= i < j < |ranked| ==>
              || ranked[i].score > ranked[j].score
              || (ranked[i].score == ranked[j].score
                  && (ranked[i].path == ranked[j].path || Below(ranked[i].path, ranked[j].path)))
  {
    hide Ahead, Place;
    ranked := [];
    for i := 0 to |sources|
      invariant InOrder(ranked) && multiset(ranked) == Candidates(sources[..i])
    {
      assert sources[..i + 1][..i] == sources[..i];
      var s := sources[i];
      if !s.eligible {
        continue;
      }
      if s.content.None? || s.sensitive || s.score <= 0 {
        continue;
      }
      PlaceAdds(ranked, Ranked(s.score, s.path, s.content.value));
      PlaceKeepsOrder(ranked, Ranked(s.score, s.path, s.content.value));
      ranked := Place(ranked, Ranked(s.score, s.path, s.content.value));
    }
    assert sources[..|sources|] == sources;
    forall x
      ensures x in ranked <==> x.score > 0 && Source(x.path, true, Some(x.content), false, x.score) in sources
    {
      CandidatesAre(sources, x);
      assert x in ranked <==> x in multiset(ranked);
    }
    forall i, j | 0 <= i < j < |ranked|
      ensures ranked[i].score >= ranked[j].score
      ensures ranked[i].score == ranked[j].score ==> ranked[i].path == ranked[j].path || Below(ranked[i].path, ranked[j].path)
    {
      InOrderMeans(ranked, i, j);
    }
  }

  // ---------- packing ----------

  /** The characters of the picked files. */
  function Size(ranked: seq<Ranked>, picks: seq<nat>): nat {
    if picks == [] then 0
    else
      var last := picks[|picks| - 1];
      Size(ranked, picks[..|picks| - 1]) + (if last < |ranked| then |ranked[last].content| else 0)
  }

  /** File i can still be taken whole after the picks. */
  predicate Fits(ranked: seq<Ranked>, limits: Limits, picks: seq<nat>, i: nat)
    requires i < |ranked|
  {
    var remaining := limits.maxTotalChars - Size(ranked, picks);
    && |picks| < limits.maxFiles && remaining > 0
    && |ranked[i].content| <= limits.maxCharsPerFile && |ranked[i].content| <= remaining
  }

  /** The greedy choice among the first n files: each is taken if it still fits. */
  function Picks(ranked: seq<Ranked>, limits: Limits, n: nat): (picks: seq<nat>)
    requires n <= |ranked|
    ensures |picks| <= n && forall k :: 0 <= k < |picks| ==> picks[k] < n
  {
    if n == 0 then []
    else
      var earlier := Picks(ranked, limits, n - 1);
      if Fits(ranked, limits, earlier, n - 1) then earlier + [n - 1] else earlier
  }

  /** Once the file count or the total is exhausted, nothing more is taken. */
  lemma {:induction false} NothingMoreFits(ranked: seq<Ranked>, limits: Limits, n: nat, m: nat)
    requires n <= m <= |ranked|
    requires var picks := Picks(ranked, limits, n);
             |picks| >= limits.maxFiles || limits.maxTotalChars - Size(ranked, picks) <= 0
    ensures Picks(ranked, limits, m) == Picks(ranked, limits, n)
    decreases m - n
  {
    if n < m {
      NothingMoreFits(ranked, limits, n, m - 1);
    }
  }

  lemma SizeMore(ranked: seq<Ranked>, picks: seq<nat>, i: nat)
    requires i < |ranked|
    ensures Size(ranked, picks + [i]) == Size(ranked, picks) + |ranked[i].content|
  {
  }

  function Chosen(ranked: seq<Ranked>, picks: seq<nat>): (files: seq<Ranked>)
    requires forall k :: 0 <= k < |picks| ==> picks[k] < |ranked|
    ensures |files| == |picks| && forall k :: 0 <= k < |picks| ==> files[k] == ranked[picks[k]]
  {
    seq(|picks|, k requires 0 <= k < |picks| => ranked[picks[k]])
  }

  /** The packing loop, which stops early, makes the greedy choice among all files. */
  method Pack(ranked: seq<Ranked>, limits: Limits) returns (files: seq<Ranked>)
    ensures files == Chosen(ranked, Picks(ranked, limits, |ranked|))
  {
    files := [];
    var total := 0;
    for i := 0 to |ranked|
      invariant files == Chosen(ranked, Picks(ranked, limits, i)) && total == Size(ranked, Picks(ranked, limits, i))
    {
      ghost var picks := Picks(ranked, limits, i);
      if |files| >= limits.maxFiles {
        NothingMoreFits(ranked, limits, i, |ranked|);
        return;
      }
      var remaining := limits.maxTotalChars - total;
      if remaining <= 0 {
        NothingMoreFits(ranked, limits, i, |ranked|);
        return;
      }
      var content := ranked[i].content;
      if |content| > limits.maxCharsPerFile {
        continue;
      }
      if |content| > remaining {
        continue;
      }
      SizeMore(ranked, picks, i);
      files := files + [ranked[i]];
      total := total + |content|;
    }
  }

  method Build(instruction: string, sources: seq<Source>, limits: Limits) returns (r: Result<seq<Ranked>>)
    ensures r.Err? <==> Text.Strip(instruction) == ""
    ensures r.Ok? ==> exists ranked :: InOrder(ranked) && multiset(ranked) == Candidates(sources)
                                       && r.value == Chosen(ranked, Picks(ranked, limits, |ranked|))
    ensures r.Ok? ==> forall f :: f in r.value ==> f.score > 0 && Source(f.path, true, Some(f.content), false, f.score) in sources
  {
    hide InOrder, Candidates, Picks, Text.Strip;
    if Text.Strip(instruction) == "" {
      return Err(ValueError);
    }
    var ranked := Rank(sources);
    var files := Pack(ranked, limits);
    r := Ok(files);
  }

  // ---------- main results ----------

  function AtLeastZero(n: int): nat {
    if n < 0 then 0 else n
  }

  lemma NothingHasNoSize(ranked: seq<Ranked>)
    ensures Size(ranked, []) == 0
  {
  }

  /** Whole files, as a subsequence of the ranking, within all three limits; a negative limit admits nothing. */
  lemma {:induction false} PacksWithinLimits(ranked: seq<Ranked>, limits: Limits, n: nat)
    requires n <= |ranked|
    ensures var picks := Picks(ranked, limits, n);
            && (forall j, k :: 0 <= j < k < |picks| ==> picks[j] < picks[k])
            && |picks| <= AtLeastZero(limits.maxFiles) && Size(ranked, picks) <= AtLeastZero(limits.maxTotalChars)
            && (forall k :: 0 <= k < |picks| ==> |ranked[picks[k]].content| <= limits.maxCharsPerFile)
  {
    hide Size;
    NothingHasNoSize(ranked);
    if n > 0 {
      PacksWithinLimits(ranked, limits, n - 1);
      SizeMore(ranked, Picks(ranked, limits, n - 1), n - 1);
    }
  }

  /** The picks only grow, and with them their size. */
  lemma {:induction false} PicksGrow(ranked: seq<Ranked>, limits: Limits, n: nat, m: nat)
    requires n <= m <= |ranked|
    ensures Picks(ranked, limits, n) <= Picks(ranked, limits, m)
    ensures Size(ranked, Picks(ranked, limits, n)) <= Size(ranked, Picks(ranked, limits, m))
    decreases m - n
  {
    hide Size, Fits;
    if n < m {
      PicksGrow(ranked, limits, n, m - 1);
      SizeMore(ranked, Picks(ranked, limits, m - 1), m - 1);
    }
  }

  /**
   The packing is maximal: if fewer files than allowed were taken, every omitted file that is not empty and within the
   per-file limit is larger than what remains.
   */
  lemma PackingIsMaximal(ranked: seq<Ranked>, limits: Limits, i: nat)
    requires i < |ranked|
    ensures var picks := Picks(ranked, limits, |ranked|);
            |picks| < limits.maxFiles && i !in picks && ranked[i].content != "" && |ranked[i].content| <= limits.maxCharsPerFile ==>
              |ranked[i].content| > limits.maxTotalChars - Size(ranked, picks)
  {
    PicksGrow(ranked, limits, i, |ranked|);
    PicksGrow(ranked, limits, i + 1, |ranked|);
    var before, after := Picks(ranked, limits, i), Picks(ranked, limits, i + 1);
    if Fits(ranked, limits, before, i) {
      assert after[|before|] == i;
      assert i in Picks(ranked, limits, |ranked|);
    }
  }
}
