/** The breakdown merger: how the epics collected from all chunks are folded
    into one epic per normalized title, and how the stories of each merged
    epic are deduplicated per normalized title. This module is the reference
    definition shared by the two implementations (main.go and
    internal/services/ai.go); the loops that compute it are in AiService.

    The Go code keeps the entries in a map and lists them in map iteration
    order, which is unspecified. Here the entries are listed in the order in
    which their key first occurs; every property below is stated per key and
    so does not depend on that choice. */
module Merging {
  import opened Models
  import opened Text
  import opened Keyed

  function EpicKey(e: Epic): string {
    Normalize(e.title)
  }

  function StoryKey(s: Story): string {
    Normalize(s.title)
  }

  /** The priority an entry keeps when an epic of priority `incoming` is
      folded into it: High always wins, Medium replaces only Low. */
  function Escalate(existing: string, incoming: string): string {
    if incoming == "High" || (incoming == "Medium" && existing == "Low") then incoming else existing
  }

  /** A description is replaced only by a strictly longer one. */
  function Longer(existing: string, incoming: string): string {
    if |incoming| > |existing| then incoming else existing
  }

  /** Folding one more epic with the same key into an existing entry. */
  function Absorb(entry: Epic, e: Epic): Epic {
    entry.(stories := entry.stories + e.stories,
           description := Longer(entry.description, e.description),
           priority := Escalate(entry.priority, e.priority))
  }

  /** The entry for one key: a copy of the first epic with that key, into
      which every later one is folded in input order. Title and chunk are the
      first epic's. */
  function Combine(g: seq<Epic>): (r: Epic)
    requires |g| > 0
    ensures r.title == g[0].title && r.chunk == g[0].chunk
  {
    if |g| == 1 then g[0] else Absorb(Combine(g[..|g| - 1]), g[|g| - 1])
  }

  /** The entries of the epic map after the first pass, before deduplication. */
  function Merged(epics: seq<Epic>): (m: seq<Epic>)
    ensures |m| == |Keys(epics, EpicKey)|
  {
    var ks := Keys(epics, EpicKey);
    seq(|ks|, i requires 0 <= i < |ks| => EpicEntry(epics, ks[i]))
  }

  /** The entry of key `k`, which some input epic has. */
  function EpicEntry(epics: seq<Epic>, k: string): Epic
    requires k in Keys(epics, EpicKey)
  {
    GroupNonEmpty(epics, EpicKey, k);
    Combine(Group(epics, EpicKey, k))
  }

  /** A story replaces the current holder of its key when it has a strictly
      longer description or strictly more acceptance criteria. */
  predicate MoreDetailed(s: Story, holder: Story) {
    |s.description| > |holder.description| || |s.acceptanceCriteria| > |holder.acceptanceCriteria|
  }

  function Prefer(holder: Story, s: Story): Story {
    if MoreDetailed(s, holder) then s else holder
  }

  /** The story left holding a key after the stories with that key are
      offered one by one, each compared with the current holder only. */
  function Survivor(g: seq<Story>): (r: Story)
    requires |g| > 0
    ensures r in g
  {
    if |g| == 1 then g[0] else Prefer(Survivor(g[..|g| - 1]), g[|g| - 1])
  }

  /** deduplicateStories: one story per normalized title. */
  function Dedup(stories: seq<Story>): (d: seq<Story>)
    ensures |d| == |Keys(stories, StoryKey)|
  {
    var ks := Keys(stories, StoryKey);
    seq(|ks|, i requires 0 <= i < |ks| => StoryEntry(stories, ks[i]))
  }

  /** The story kept for key `k`, which some input story has. */
  function StoryEntry(stories: seq<Story>, k: string): Story
    requires k in Keys(stories, StoryKey)
  {
    GroupNonEmpty(stories, StoryKey, k);
    Survivor(Group(stories, StoryKey, k))
  }

  /** MergeEpics: the merged entries, each with its stories deduplicated. */
  function MergeSpec(epics: seq<Epic>): (r: seq<Epic>)
    ensures |r| == |Keys(epics, EpicKey)|
  {
    var m := Merged(epics);
    seq(|m|, i requires 0 <= i < |m| => m[i].(stories := Dedup(m[i].stories)))
  }

  /** All stories of a group of epics, epic after epic. */
  function ConcatStories(g: seq<Epic>): seq<Story> {
    if g == [] then [] else ConcatStories(g[..|g| - 1]) + g[|g| - 1].stories
  }

  function Rank(priority: string): nat {
    if priority == "High" then 3 else if priority == "Medium" then 2 else if priority == "Low" then 1 else 0
  }

  predicate KnownPriority(priority: string) {
    priority == "High" || priority == "Medium" || priority == "Low"
  }

  // ---------------------------------------------------------------------
  // One step of the loops: how the result changes when one more input is
  // processed. The loops in AiService are proved with these.

  lemma MergedKey(epics: seq<Epic>, i: nat)
    requires i < |Merged(epics)|
    ensures EpicKey(Merged(epics)[i]) == Keys(epics, EpicKey)[i]
  {
    var ks := Keys(epics, EpicKey);
    var g := Group(epics, EpicKey, ks[i]);
    GroupNonEmpty(epics, EpicKey, ks[i]);
    GroupSpec(epics, EpicKey, ks[i]);
    assert g[0] in g;
  }

  lemma DedupKey(stories: seq<Story>, i: nat)
    requires i < |Dedup(stories)|
    ensures StoryKey(Dedup(stories)[i]) == Keys(stories, StoryKey)[i]
    ensures Dedup(stories)[i] in stories
  {
    var ks := Keys(stories, StoryKey);
    var g := Group(stories, StoryKey, ks[i]);
    GroupNonEmpty(stories, StoryKey, ks[i]);
    GroupSpec(stories, StoryKey, ks[i]);
    assert Survivor(g) in g;
  }

  /** An epic whose key already has entry j is folded into that entry. */
  lemma MergedSnocFound(xs: seq<Epic>, e: Epic, j: nat)
    requires j < |Merged(xs)| && EpicKey(Merged(xs)[j]) == EpicKey(e)
    ensures Merged(xs + [e]) == Merged(xs)[j := Absorb(Merged(xs)[j], e)]
  {
    var ys := xs + [e];
    assert ys[..|ys| - 1] == xs;
    var ks := Keys(xs, EpicKey);
    KeysUnique(xs, EpicKey);
    MergedKey(xs, j);
    assert Keys(ys, EpicKey) == ks;
    forall i | 0 <= i < |ks|
      ensures Merged(ys)[i] == Merged(xs)[j := Absorb(Merged(xs)[j], e)][i]
    {
      var g := Group(xs, EpicKey, ks[i]);
      GroupNonEmpty(xs, EpicKey, ks[i]);
      if i == j {
        assert Group(ys, EpicKey, ks[i]) == g + [e];
        assert (g + [e])[..|g|] == g;
      } else {
        assert ks[i] != ks[j];
        assert Group(ys, EpicKey, ks[i]) == g;
      }
    }
  }

  /** An epic with a new key is appended as its own entry. */
  lemma MergedSnocNew(xs: seq<Epic>, e: Epic)
    requires forall j :: 0 <= j < |Merged(xs)| ==> EpicKey(Merged(xs)[j]) != EpicKey(e)
    ensures Merged(xs + [e]) == Merged(xs) + [e]
  {
    var ys := xs + [e];
    assert ys[..|ys| - 1] == xs;
    var ks := Keys(xs, EpicKey);
    forall j | 0 <= j < |ks| ensures ks[j] != EpicKey(e) {
      MergedKey(xs, j);
    }
    forall j | 0 <= j < |xs| ensures EpicKey(xs[j]) != EpicKey(e) {
      KeyListed(xs, EpicKey, j);
    }
    assert Keys(ys, EpicKey) == ks + [EpicKey(e)];
    forall i | 0 <= i < |ks| + 1
      ensures Merged(ys)[i] == (Merged(xs) + [e])[i]
    {
      if i < |ks| {
        assert Group(ys, EpicKey, ks[i]) == Group(xs, EpicKey, ks[i]);
      } else {
        GroupEmpty(xs, EpicKey, EpicKey(e));
        assert Group(ys, EpicKey, EpicKey(e)) == [e];
      }
    }
  }

  /** A story whose key is held by entry j replaces that holder exactly when
      it is more detailed; no other entry changes. */
  lemma DedupSnocFound(xs: seq<Story>, s: Story, j: nat)
    requires j < |Dedup(xs)| && StoryKey(Dedup(xs)[j]) == StoryKey(s)
    ensures Dedup(xs + [s]) == Dedup(xs)[j := Prefer(Dedup(xs)[j], s)]
  {
    var ys := xs + [s];
    assert ys[..|ys| - 1] == xs;
    var ks := Keys(xs, StoryKey);
    KeysUnique(xs, StoryKey);
    DedupKey(xs, j);
    assert Keys(ys, StoryKey) == ks;
    forall i | 0 <= i < |ks|
      ensures Dedup(ys)[i] == Dedup(xs)[j := Prefer(Dedup(xs)[j], s)][i]
    {
      var g := Group(xs, StoryKey, ks[i]);
      GroupNonEmpty(xs, StoryKey, ks[i]);
      if i == j {
        assert Group(ys, StoryKey, ks[i]) == g + [s];
        assert (g + [s])[..|g|] == g;
      } else {
        assert ks[i] != ks[j];
        assert Group(ys, StoryKey, ks[i]) == g;
      }
    }
  }

  /** The replacement rule in the source's terms: a later story with a held
      key takes that entry exactly when its description is strictly longer
      or it has strictly more acceptance criteria than the current holder;
      every other entry stays as it was. */
  lemma DedupReplacement(xs: seq<Story>, s: Story, j: nat)
    requires j < |Dedup(xs)| && StoryKey(Dedup(xs)[j]) == StoryKey(s)
    ensures |Dedup(xs + [s])| == |Dedup(xs)|
    ensures var holder := Dedup(xs)[j];
      Dedup(xs + [s])[j]
        == if |s.description| > |holder.description| || |s.acceptanceCriteria| > |holder.acceptanceCriteria|
           then s else holder
    ensures forall i :: 0 <= i < |Dedup(xs)| && i != j ==> Dedup(xs + [s])[i] == Dedup(xs)[i]
  {
    DedupSnocFound(xs, s, j);
  }

  /** A story with a new key is kept as its own entry. */
  lemma DedupSnocNew(xs: seq<Story>, s: Story)
    requires forall j :: 0 <= j < |Dedup(xs)| ==> StoryKey(Dedup(xs)[j]) != StoryKey(s)
    ensures Dedup(xs + [s]) == Dedup(xs) + [s]
  {
    var ys := xs + [s];
    assert ys[..|ys| - 1] == xs;
    var ks := Keys(xs, StoryKey);
    forall j | 0 <= j < |ks| ensures ks[j] != StoryKey(s) {
      DedupKey(xs, j);
    }
    forall j | 0 <= j < |xs| ensures StoryKey(xs[j]) != StoryKey(s) {
      KeyListed(xs, StoryKey, j);
    }
    assert Keys(ys, StoryKey) == ks + [StoryKey(s)];
    forall i | 0 <= i < |ks| + 1
      ensures Dedup(ys)[i] == (Dedup(xs) + [s])[i]
    {
      if i < |ks| {
        assert Group(ys, StoryKey, ks[i]) == Group(xs, StoryKey, ks[i]);
      } else {
        GroupEmpty(xs, StoryKey, StoryKey(s));
        assert Group(ys, StoryKey, StoryKey(s)) == [s];
      }
    }
  }

  // ---------------------------------------------------------------------
  // What the merger promises.

  /** The i-th merged epic has the i-th key. */
  lemma MergeSpecKey(epics: seq<Epic>, i: nat)
    requires i < |MergeSpec(epics)|
    ensures EpicKey(MergeSpec(epics)[i]) == Keys(epics, EpicKey)[i]
  {
    MergedKey(epics, i);
    assert MergeSpec(epics)[i].title == Merged(epics)[i].title;
  }

  /** The merged epics have pairwise distinct normalized titles. */
  lemma MergeSpecDistinct(epics: seq<Epic>)
    ensures KeysDistinct(MergeSpec(epics), EpicKey)
  {
    var r := MergeSpec(epics);
    KeysUnique(epics, EpicKey);
    forall i | 0 <= i < |r| ensures EpicKey(r[i]) == Keys(epics, EpicKey)[i] {
      MergeSpecKey(epics, i);
    }
  }

  /** Every input epic's normalized title is the title of a merged epic. */
  lemma MergeSpecCovers(epics: seq<Epic>, p: nat) returns (i: nat)
    requires p < |epics|
    ensures i < |MergeSpec(epics)| && EpicKey(MergeSpec(epics)[i]) == EpicKey(epics[p])
  {
    var ks := Keys(epics, EpicKey);
    KeyListed(epics, EpicKey, p);
    i :| 0 <= i < |ks| && ks[i] == EpicKey(epics[p]);
    MergeSpecKey(epics, i);
  }

  /** Every merged epic's normalized title is that of an input epic. */
  lemma MergeSpecFromInput(epics: seq<Epic>, i: nat) returns (p: nat)
    requires i < |MergeSpec(epics)|
    ensures p < |epics| && EpicKey(epics[p]) == EpicKey(MergeSpec(epics)[i])
  {
    p := KeyOccurs(epics, EpicKey, Keys(epics, EpicKey)[i]);
    MergeSpecKey(epics, i);
  }

  /** Each merged epic is the entry of its key's group with deduplicated
      stories: it carries the title and chunk of the FIRST input epic with
      that key (the group's head). */
  lemma MergeSpecEntry(epics: seq<Epic>, p: nat) returns (i: nat)
    requires p < |epics|
    requires forall q :: 0 <= q < p ==> EpicKey(epics[q]) != EpicKey(epics[p])
    ensures i < |MergeSpec(epics)|
    ensures MergeSpec(epics)[i].title == epics[p].title && MergeSpec(epics)[i].chunk == epics[p].chunk
    ensures var g := Group(epics, EpicKey, EpicKey(epics[p]));
      |g| > 0 && g[0] == epics[p]
      && MergeSpec(epics)[i] == Combine(g).(stories := Dedup(Combine(g).stories))
  {
    var ks := Keys(epics, EpicKey);
    KeyListed(epics, EpicKey, p);
    i :| 0 <= i < |ks| && ks[i] == EpicKey(epics[p]);
    GroupHead(epics, EpicKey, p);
    var g := Group(epics, EpicKey, EpicKey(epics[p]));
    assert Merged(epics)[i] == EpicEntry(epics, ks[i]) == Combine(g);
  }

  /** Before deduplication, an entry's stories are those of every epic in its
      group, concatenated in input order. */
  lemma {:induction false} CombineStories(g: seq<Epic>)
    requires |g| > 0
    ensures Combine(g).stories == ConcatStories(g)
  {
    if |g| > 1 {
      CombineStories(g[..|g| - 1]);
    } else {
      assert g[..0] == [];
    }
  }

  /** `d` is g[i]'s description, no description of `g` is longer and every
      one before g[i] is shorter. */
  predicate LongestFirst(g: seq<Epic>, i: int, d: string) {
    && 0 <= i < |g| && d == g[i].description
    && (forall j :: 0 <= j < |g| ==> |g[j].description| <= |d|)
    && (forall j :: 0 <= j < i ==> |g[j].description| < |d|)
  }

  /** The entry's description is the longest in its group, and the earliest
      of the longest ones. */
  lemma {:induction false} CombineDescription(g: seq<Epic>)
    requires |g| > 0
    ensures exists i :: LongestFirst(g, i, Combine(g).description)
  {
    if |g| > 1 {
      var init := g[..|g| - 1];
      var last := |g| - 1;
      CombineDescription(init);
      var i :| LongestFirst(init, i, Combine(init).description);
      var d := Combine(g).description;
      if |g[last].description| > |Combine(init).description| {
        assert LongestFirst(g, last, d);
      } else {
        assert LongestFirst(g, i, d);
      }
    } else {
      assert LongestFirst(g, 0, Combine(g).description);
    }
  }

  /** The entry is High exactly when some epic of its group is High: an
      existing High is never downgraded. */
  lemma {:induction false} CombineHigh(g: seq<Epic>)
    requires |g| > 0
    ensures Combine(g).priority == "High" <==> exists i :: 0 <= i < |g| && g[i].priority == "High"
    ensures exists i :: 0 <= i < |g| && Combine(g).priority == g[i].priority
  {
    if |g| > 1 {
      var init := g[..|g| - 1];
      CombineHigh(init);
      var i :| 0 <= i < |init| && Combine(init).priority == init[i].priority;
      assert Combine(g).priority == g[i].priority || Combine(g).priority == g[|g| - 1].priority;
      if Combine(g).priority == "High" && g[|g| - 1].priority != "High" {
        assert Combine(init).priority == "High";
      }
      if g[|g| - 1].priority == "High" {
        assert Combine(g).priority == "High";
      }
    }
  }

  /** When every priority in the group is High, Medium or Low, the entry's
      priority is the highest of them. */
  lemma {:induction false} CombineHighestPriority(g: seq<Epic>)
    requires |g| > 0
    requires forall i :: 0 <= i < |g| ==> KnownPriority(g[i].priority)
    ensures KnownPriority(Combine(g).priority)
    ensures forall i :: 0 <= i < |g| ==> Rank(g[i].priority) <= Rank(Combine(g).priority)
  {
    if |g| > 1 {
      CombineHighestPriority(g[..|g| - 1]);
      assert forall i :: 0 <= i < |g| - 1 ==> g[i] == g[..|g| - 1][i];
    }
  }

  /** Medium replaces only Low: an entry whose priority is not one of the
      three known values keeps it against an incoming Medium. */
  lemma EscalateKeepsUnknown(existing: string)
    requires !KnownPriority(existing)
    ensures Escalate(existing, "Medium") == existing
    ensures Escalate(existing, "Low") == existing
    ensures Escalate(existing, "High") == "High"
  {
  }

  /** Low, then Medium, then High with the same title ends as High, having
      passed through Medium; High folded with Low stays High. */
  lemma PriorityEscalationExample(a: Epic, b: Epic, c: Epic)
    requires a.priority == "Low" && b.priority == "Medium" && c.priority == "High"
    ensures Combine([a, b]).priority == "Medium"
    ensures Combine([a, b, c]).priority == "High"
    ensures Combine([c, a]).priority == "High"
  {
    assert [a, b][..1] == [a];
    assert [a, b, c][..2] == [a, b];
    assert [c, a][..1] == [c];
  }

  /** The deduplicated stories have pairwise distinct normalized titles. */
  lemma DedupUnique(stories: seq<Story>)
    ensures KeysDistinct(Dedup(stories), StoryKey)
  {
    var d := Dedup(stories);
    KeysUnique(stories, StoryKey);
    forall i | 0 <= i < |d| ensures StoryKey(d[i]) == Keys(stories, StoryKey)[i] {
      DedupKey(stories, i);
    }
  }

  /** Every input story's normalized title is represented in the result. */
  lemma DedupCovers(stories: seq<Story>, p: nat) returns (i: nat)
    requires p < |stories|
    ensures i < |Dedup(stories)| && StoryKey(Dedup(stories)[i]) == StoryKey(stories[p])
  {
    var ks := Keys(stories, StoryKey);
    KeyListed(stories, StoryKey, p);
    i :| 0 <= i < |ks| && ks[i] == StoryKey(stories[p]);
    DedupKey(stories, i);
  }

  /** Stories whose titles are already distinct are left as they are. */
  lemma DedupDistinct(stories: seq<Story>)
    requires KeysDistinct(stories, StoryKey)
    ensures Dedup(stories) == stories
  {
    DistinctKeysGroups(stories, StoryKey);
    forall i | 0 <= i < |stories| ensures Dedup(stories)[i] == stories[i] {
      assert Group(stories, StoryKey, StoryKey(stories[i])) == [stories[i]];
    }
  }

  /** Merging is idempotent: merging an already merged list of epics gives
      it back unchanged, so no further collapsing happens and nothing is
      lost (in particular the keys and the story count are the same). */
  lemma MergeIdempotent(epics: seq<Epic>)
    ensures MergeSpec(MergeSpec(epics)) == MergeSpec(epics)
  {
    var r := MergeSpec(epics);
    MergeSpecDistinct(epics);
    DistinctKeysGroups(r, EpicKey);
    forall i | 0 <= i < |r| ensures MergeSpec(r)[i] == r[i] {
      assert Group(r, EpicKey, EpicKey(r[i])) == [r[i]];
      assert Merged(r)[i] == r[i];
      var m := Merged(epics)[i];
      DedupUnique(m.stories);
      DedupDistinct(r[i].stories);
    }
  }

  lemma LoginPageKeys()
    ensures Normalize(" Login Page ") == "login page"
    ensures Normalize("login page") == "login page"
  {
    var t := "Login Page";
    assert " Login Page " == " " + t + " ";
    TrimSpaceSurrounded(" ", t, " ");
    TrimSpaceOfTrimmed("login page");
    LowerLoginPage();
    ToLowerTwice(t);
  }

  lemma LowerLoginPage()
    ensures ToLower("Login Page") == "login page"
  {
    var t := "Login Page";
    ToLowerSpec(t);
    assert Lower('L') == 'l' && Lower('P') == 'p';
    forall i | 0 <= i < |t| ensures ToLower(t)[i] == "login page"[i] {
    }
  }

  /** The two titles of the deduplication example normalize to the same key,
      and the story with the 40-character description is the one kept. */
  lemma LoginPageExample(a: Story, b: Story)
    requires a.title == " Login Page " && b.title == "login page"
    requires |a.description| == 10 && |b.description| == 40
    requires |a.acceptanceCriteria| == |b.acceptanceCriteria|
    ensures StoryKey(a) == StoryKey(b)
    ensures Dedup([a, b]) == [b]
  {
    LoginPageKeys();
    DedupPair(a, b);
  }

  /** Two stories with the same key leave one entry: the second when it is
      more detailed. */
  lemma DedupPair(a: Story, b: Story)
    requires StoryKey(a) == StoryKey(b)
    requires |b.description| > |a.description|
    ensures Dedup([a, b]) == [b]
  {
    var k := StoryKey(a);
    var xs := [a, b];
    assert xs[..1] == [a];
    assert [a][..0] == [];
    assert Keys([a], StoryKey) == [k];
    assert Keys(xs, StoryKey) == [k];
    assert Group([a], StoryKey, k) == [a];
    assert Group(xs, StoryKey, k) == [a, b];
    assert Survivor([a, b]) == b;
  }

  /** The comparison is pairwise with the current holder, not a search for
      the most detailed duplicate: the same three stories offered in two
      orders leave different survivors. */
  lemma SurvivorDependsOnOrder(s1: Story, s2: Story, s3: Story)
    requires |s1.description| == 3 && |s1.acceptanceCriteria| == 2
    requires |s2.description| == 4 && |s2.acceptanceCriteria| == 0
    requires |s3.description| == 1 && |s3.acceptanceCriteria| == 1
    ensures Survivor([s1, s2, s3]) == s3
    ensures Survivor([s1, s3, s2]) == s2
  {
    assert [s1, s2, s3][..2] == [s1, s2];
    assert [s1, s2][..1] == [s1];
    assert [s1, s3, s2][..2] == [s1, s3];
    assert [s1, s3][..1] == [s1];
  }
}
