/** The analysis service of the service layer (internal/services/analysis.go):
    the description is cut into overlapping windows, each window is sent to
    the AI service with retries, and the answers are merged into one
    breakdown whose totals are recomputed from the merged epics. */
module AnalysisService {
  import opened Models
  import opened Merging
  import Config
  import AI = AiService

  /** The service holds the whole configuration; its AI service is built
      from the Anthropic section of that same configuration. */
  datatype AnalysisService = AnalysisService(
    config: Config.Config,
    respond: (AiRequest, nat) -> Result<string>,
    parse: string -> Result<ProjectBreakdown>)

  function Ai(s: AnalysisService): AI.AIService<ProjectBreakdown> {
    AI.AIService(s.config.anthropic, s.respond, s.parse)
  }

  function Min(a: int, b: int): int {
    if a <= b then a else b
  }

  /** Distance between the starts of consecutive windows: the window size
      minus a quarter of it (integer division), so consecutive windows share
      size / 4 characters. */
  function Step(size: int): int {
    size - size / 4
  }

  /** The k-th window: `size` characters from k * Step(size), cut at the end
      of the content. */
  function Window(content: string, size: int, k: nat): string
    requires size >= 1
  {
    var start := Min(k * Step(size), |content|);
    content[start..Min(start + size, |content|)]
  }

  /** The number of windows: one for every start 0, step, 2 * step, ...
      that lies before `len`. */
  function ChunkCount(len: int, step: int): nat
    requires step >= 1
    decreases len
  {
    if len <= 0 then 0 else 1 + ChunkCount(len - step, step)
  }

  /** chunkContent as a function of the content: the content itself when it
      fits, otherwise every window. Empty content only fails to fit when the
      size is negative, and then no window starts inside it. */
  function Chunks(content: string, size: int): seq<string>
    requires |content| <= size || size >= 1 || |content| == 0
  {
    if |content| <= size then [content]
    else if |content| == 0 then []
    else
      var n := ChunkCount(|content|, Step(size));
      seq(n, k requires 0 <= k < n => Window(content, size, k))
  }

  lemma StepBounds(size: int)
    requires size >= 1
    ensures 1 <= Step(size) <= size && size - Step(size) == size / 4
  {
  }

  lemma MulMono(a: int, b: int, c: int)
    requires a <= b && c >= 0
    ensures a * c <= b * c
  {
  }

  /** chunkContent: returns [content] when it fits in one window; otherwise
      appends windows starting at 0, Step(size), 2 * Step(size), ... while the
      start is inside the content. With a size of 0 the start would never
      advance, and with a negative size the first slice of non-empty content
      has a negative end, so a positive size is required whenever non-empty
      content does not fit. Empty content with a negative size never enters
      the loop and gives no chunks. */
  method ChunkContent(content: string, size: int) returns (chunks: seq<string>)
    requires |content| <= size || size >= 1 || |content| == 0
    ensures chunks == Chunks(content, size)
  {
    if |content| <= size {
      return [content];
    }
    var chunkSize := size;
    var overlap := chunkSize / 4;
    var step := chunkSize - overlap;
    if size >= 1 {
      StepBounds(size);
    }
    chunks := [];
    var i := 0;
    while i < |content|
      invariant size < 1 ==> i == 0 && chunks == []
      invariant size >= 1 ==> i == |chunks| * step
      invariant size >= 1 ==> |chunks| + ChunkCount(|content| - i, step) == ChunkCount(|content|, step)
      invariant forall k :: 0 <= k < |chunks| ==> size >= 1 && chunks[k] == Window(content, size, k)
      decreases |content| - i
    {
      var end := i + chunkSize;
      if end > |content| {
        end := |content|;
      }
      assert content[i..end] == Window(content, size, |chunks|);
      chunks := chunks + [content[i..end]];
      i := i + step;
      assert i == |chunks| * step by {
        assert (|chunks| - 1) * step + step == |chunks| * step;
      }
    }
  }

  /** When non-empty content is cut, there is at least one chunk, every
      window starts inside the content, is non-empty and holds at most
      `size` characters, and the last one ends at the end of the content. */
  lemma ChunksShape(content: string, size: int)
    requires |content| > size >= 1
    ensures var cs := Chunks(content, size); var n := |cs|;
      && n >= 1
      && (forall k :: 0 <= k < n ==> k * Step(size) < |content| && 0 < |cs[k]| <= size)
      && (n - 1) * Step(size) + |cs[n - 1]| == |content|
  {
    var step := Step(size);
    var cs := Chunks(content, size);
    var n := |cs|;
    StepBounds(size);
    CountBounds(|content|, step);
    forall k | 0 <= k < n ensures k * step < |content| && 0 < |cs[k]| <= size {
      MulMono(k, n - 1, step);
    }
    assert (n - 1) * step + size >= |content| by {
      assert n * step >= |content|;
      assert (n - 1) * step + step == n * step;
    }
  }

  /** The windows reach the end of the content, and the last one starts
      inside it. */
  lemma {:induction false} CountBounds(len: int, step: int)
    requires step >= 1 && len > 0
    ensures var n := ChunkCount(len, step); n >= 1 && n * step >= len && (n - 1) * step < len
  {
    var n := ChunkCount(len, step);
    if len - step > 0 {
      CountBounds(len - step, step);
      var m := ChunkCount(len - step, step);
      assert n * step == m * step + step;
      assert (n - 1) * step == (m - 1) * step + step;
    }
  }

  /** Every character of the content is found in the window k it falls in,
      at offset p - k * Step(size): cutting loses nothing. */
  lemma ChunksCover(content: string, size: int, p: nat) returns (k: nat)
    requires |content| > size >= 1 && p < |content|
    ensures k < |Chunks(content, size)|
    ensures k * Step(size) <= p < k * Step(size) + |Chunks(content, size)[k]|
    ensures Chunks(content, size)[k][p - k * Step(size)] == content[p]
  {
    var step := Step(size);
    var n := |Chunks(content, size)|;
    StepBounds(size);
    CountBounds(|content|, step);
    k := Quotient(p, step);
    if k >= n {
      MulMono(n, k, step);
      assert false;
    }
    WindowAt(content, size, k);
    var a := k * step;
    var chunk := Chunks(content, size)[k];
    assert chunk == content[a..Min(a + size, |content|)];
    assert a <= p < Min(a + size, |content|);
    assert chunk[p - a] == content[p];
  }

  /** The index of the window of `step` characters that holds position p. */
  lemma Quotient(p: nat, step: int) returns (k: nat)
    requires step >= 1
    ensures k * step <= p < k * step + step
  {
    k := p / step;
  }

  /** Consecutive windows overlap: what follows the first Step(size)
      characters of window k is the beginning of window k + 1. The shared
      part holds size / 4 characters unless window k was cut short by the end
      of the content. */
  lemma ChunksOverlap(content: string, size: int, k: nat)
    requires |content| > size >= 1 && k + 1 < |Chunks(content, size)|
    ensures var cs := Chunks(content, size);
      && Step(size) <= |cs[k]|
      && |cs[k]| - Step(size) <= |cs[k + 1]|
      && cs[k][Step(size)..] == cs[k + 1][..|cs[k]| - Step(size)]
      && |cs[k]| - Step(size) <= size / 4
      && (k * Step(size) + size <= |content| ==> |cs[k]| - Step(size) == size / 4)
  {
    var step := Step(size);
    StepBounds(size);
    WindowAt(content, size, k);
    WindowAt(content, size, k + 1);
    MulSucc(k, step);
    Overlap(content, k * step, step, size);
  }

  /** Two windows of `size` characters whose starts are `step` apart share
      everything after the first `step` characters of the first one. */
  lemma Overlap(content: string, a: int, step: int, size: int)
    requires 0 <= a && 1 <= step <= size && a + step < |content|
    ensures var x := content[a..Min(a + size, |content|)];
      var y := content[a + step..Min(a + step + size, |content|)];
      && step <= |x| && |x| - step <= |y|
      && x[step..] == y[..|x| - step]
      && |x| - step <= size - step
      && (a + size <= |content| ==> |x| - step == size - step)
  {
    var ea := Min(a + size, |content|);
    var eb := Min(a + step + size, |content|);
    SliceOfSlice(content, a, ea, step);
    SliceOfSlice(content, a + step, eb, ea - a - step);
  }

  /** Window k of the cut content starts inside it, at k * Step(size). */
  lemma WindowAt(content: string, size: int, k: nat)
    requires |content| > size >= 1 && k < |Chunks(content, size)|
    ensures var a := k * Step(size);
      && 0 <= a < |content|
      && Chunks(content, size)[k] == content[a..Min(a + size, |content|)]
  {
    var step := Step(size);
    var n := ChunkCount(|content|, step);
    StepBounds(size);
    CountBounds(|content|, step);
    assert |Chunks(content, size)| == n;
    MulMono(0, k, step);
    MulMono(k, n - 1, step);
    assert 0 <= k * step <= (n - 1) * step < |content|;
    assert Chunks(content, size)[k] == Window(content, size, k);
  }

  lemma MulSucc(k: int, step: int)
    ensures (k + 1) * step == k * step + step
  {
  }

  lemma SliceOfSlice(s: string, i: int, j: int, d: int)
    requires 0 <= i <= j <= |s| && 0 <= d <= j - i
    ensures s[i..j][d..] == s[i + d..j]
    ensures s[i..j][..d] == s[i..i + d]
  {
  }

  /** The running project name: chunk 1's name, and " (Merged)" appended
      whenever a later chunk's name differs from the running name. */
  function MergedName(names: seq<string>): string
    requires |names| > 0
  {
    if |names| == 1 then names[0]
    else
      var running := MergedName(names[..|names| - 1]);
      if names[|names| - 1] != running then running + " (Merged)" else running
  }

  /** k copies of " (Merged)". */
  function MergedSuffix(k: nat): string {
    if k == 0 then "" else MergedSuffix(k - 1) + " (Merged)"
  }

  /** The name is chunk 1's name followed by at most one " (Merged)" per
      later chunk. */
  lemma {:induction false} MergedNameShape(names: seq<string>)
    requires |names| > 0
    ensures exists k :: 0 <= k < |names| && MergedName(names) == names[0] + MergedSuffix(k)
  {
    if |names| == 1 {
      assert MergedName(names) == names[0] + MergedSuffix(0);
    } else {
      var init := names[..|names| - 1];
      MergedNameShape(init);
      var k :| 0 <= k < |init| && MergedName(init) == init[0] + MergedSuffix(k);
      var running := MergedName(init);
      assert init[0] == names[0];
      if names[|names| - 1] != running {
        assert MergedName(names) == running + " (Merged)";
        assert MergedSuffix(k + 1) == MergedSuffix(k) + " (Merged)";
        assert names[0] + MergedSuffix(k) + " (Merged)" == names[0] + (MergedSuffix(k) + " (Merged)");
        assert MergedName(names) == names[0] + MergedSuffix(k + 1);
      } else {
        assert MergedName(names) == names[0] + MergedSuffix(k);
      }
    }
  }

  /** When every chunk reports the same name, that name is kept. */
  lemma {:induction false} MergedNameAgreeing(names: seq<string>)
    requires |names| > 0
    requires forall i :: 0 <= i < |names| ==> names[i] == names[0]
    ensures MergedName(names) == names[0]
  {
    if |names| > 1 {
      MergedNameAgreeing(names[..|names| - 1]);
    }
  }

  /** Names are compared with the running name, not with chunk 1's: once a
      suffix has been added, every later chunk adds another, even one that
      repeats chunk 1's name or the previous chunk's name. */
  lemma MergedNameExample()
    ensures MergedName(["Shop", "Store"]) == "Shop (Merged)"
    ensures MergedName(["Shop", "Store", "Store"]) == "Shop (Merged) (Merged)"
    ensures MergedName(["Shop", "Store", "Shop"]) == "Shop (Merged) (Merged)"
  {
    assert ["Shop", "Store"][..1] == ["Shop"];
    assert ["Shop", "Store", "Store"][..2] == ["Shop", "Store"];
    assert ["Shop", "Store", "Shop"][..2] == ["Shop", "Store"];
  }

  function Names(bs: seq<ProjectBreakdown>): seq<string> {
    seq(|bs|, i requires 0 <= i < |bs| => bs[i].projectName)
  }

  /** All epics of all answers, in chunk order. */
  function AllEpics(bs: seq<ProjectBreakdown>): seq<Epic> {
    if bs == [] then [] else AllEpics(bs[..|bs| - 1]) + bs[|bs| - 1].epics
  }

  /** ProcessProject on the outcome of reading the input file: a read error
      is wrapped; otherwise the content is cut into chunks and the chunks are
      analysed. */
  method ProcessProject(s: AnalysisService, file: Result<string>) returns (r: Result<ProjectBreakdown>)
    requires file.Success? && |file.value| > s.config.anthropic.chunkSizeChars
      ==> s.config.anthropic.chunkSizeChars >= 1 || |file.value| == 0
    ensures file.Failure? ==> r == Failure(ReadFailed(file.error))
    ensures file.Success? ==> Analysed(Ai(s), Chunks(file.value, s.config.anthropic.chunkSizeChars), r)
  {
    if file.Failure? {
      return Failure(ReadFailed(file.error));
    }
    var content := file.value;
    var size := s.config.anthropic.chunkSizeChars;
    var chunks := ChunkContent(content, size);
    r := ProcessChunks(Ai(s), chunks);
  }

  /** The outcome of analysing `chunks`: success exactly when every chunk was
      answered; otherwise the first chunk that failed after its retries
      names the failure. On success the epics are the merged epics of all
      chunks, the name is the running merged name, the overview is chunk 1's
      (both empty when there are no chunks), and the totals count the merged
      epics, their stories and their story points. */
  predicate Analysed(ai: AI.AIService<ProjectBreakdown>, chunks: seq<string>, r: Result<ProjectBreakdown>) {
    && (r.Success? <==> AI.Answered(ai, chunks, |chunks|))
    && (r.Failure? ==> exists i :: (0 <= i < |chunks| && AI.Answered(ai, chunks, i)
          && AI.Answer(ai, chunks, i).Failure?
          && r.error == ChunkFailed(i + 1, AI.Answer(ai, chunks, i).error)))
    && (r.Success? ==>
          var bs := AI.Answers(ai, chunks, |chunks|);
          && r.value.projectName == (if bs == [] then "" else MergedName(Names(bs)))
          && r.value.overview == (if bs == [] then "" else bs[0].overview)
          && r.value.epics == MergeSpec(AllEpics(bs))
          && r.value.totalEpics == |r.value.epics|
          && r.value.totalStories == StoryCount(r.value.epics)
          && r.value.totalStoryPoints == StoryPoints(r.value.epics)
          && r.value.processedChunks == |chunks|)
  }

  /** Empty content with a negative chunk size: no chunk is cut, no AI call
      is made, and the analysis succeeds with an empty breakdown. */
  lemma NoChunks(ai: AI.AIService<ProjectBreakdown>, size: int, r: Result<ProjectBreakdown>)
    requires size < 0 && Analysed(ai, Chunks("", size), r)
    ensures Chunks("", size) == []
    ensures r == Success(ProjectBreakdown("", "", [], 0, 0, 0, 0))
  {
  }

  /** The chunk loop of ProcessProject, followed by the merge and the totals. */
  method ProcessChunks(ai: AI.AIService<ProjectBreakdown>, chunks: seq<string>) returns (r: Result<ProjectBreakdown>)
    ensures Analysed(ai, chunks, r)
  {
    var allEpics: seq<Epic> := [];
    var projectName := "";
    var overview := "";
    var i := 0;
    while i < |chunks|
      invariant i <= |chunks|
      invariant AI.Answered(ai, chunks, i)
      invariant allEpics == AllEpics(AI.Answers(ai, chunks, i))
      invariant i == 0 ==> projectName == "" && overview == ""
      invariant i > 0 ==> projectName == MergedName(Names(AI.Answers(ai, chunks, i)))
      invariant i > 0 ==> overview == AI.Answers(ai, chunks, i)[0].overview
    {
      var breakdown := AI.ProcessChunk(ai, chunks, i);
      if breakdown.Failure? {
        AnalysedFailure(ai, chunks, i);
        return Failure(ChunkFailed(i + 1, breakdown.error));
      }
      var b := breakdown.value;
      AnswersStep(ai, chunks, i, b);
      allEpics := allEpics + b.epics;
      if i == 0 {
        projectName := b.projectName;
        overview := b.overview;
      } else if b.projectName != projectName {
        projectName := projectName + " (Merged)";
      }
      i := i + 1;
    }
    var mergedEpics := AI.MergeEpics(allEpics);
    var totalStories, totalPoints := Totals(mergedEpics);
    r := Success(ProjectBreakdown(projectName, overview, mergedEpics, |mergedEpics|,
                                  totalStories, totalPoints, |chunks|));
    AnalysedSuccess(ai, chunks, r.value);
  }

  lemma AnalysedFailure(ai: AI.AIService<ProjectBreakdown>, chunks: seq<string>, i: nat)
    requires i < |chunks| && AI.Answered(ai, chunks, i) && AI.Answer(ai, chunks, i).Failure?
    ensures Analysed(ai, chunks, Failure(ChunkFailed(i + 1, AI.Answer(ai, chunks, i).error)))
  {
    assert !AI.Answered(ai, chunks, |chunks|);
  }

  lemma AnalysedSuccess(ai: AI.AIService<ProjectBreakdown>, chunks: seq<string>, b: ProjectBreakdown)
    requires AI.Answered(ai, chunks, |chunks|)
    requires var bs := AI.Answers(ai, chunks, |chunks|);
      && b.projectName == (if bs == [] then "" else MergedName(Names(bs)))
      && b.overview == (if bs == [] then "" else bs[0].overview)
      && b.epics == MergeSpec(AllEpics(bs))
      && b.totalEpics == |b.epics|
      && b.totalStories == StoryCount(b.epics)
      && b.totalStoryPoints == StoryPoints(b.epics)
      && b.processedChunks == |chunks|
    ensures Analysed(ai, chunks, Success(b))
  {
  }

  /** One more answered chunk extends the answers, their epics and the
      running name by that chunk's. */
  lemma AnswersStep(ai: AI.AIService<ProjectBreakdown>, chunks: seq<string>, i: nat, b: ProjectBreakdown)
    requires i < |chunks| && AI.Answered(ai, chunks, i) && AI.Answer(ai, chunks, i) == Success(b)
    ensures AI.Answered(ai, chunks, i + 1)
    ensures var bs := AI.Answers(ai, chunks, i + 1);
      && bs == AI.Answers(ai, chunks, i) + [b]
      && AllEpics(bs) == AllEpics(AI.Answers(ai, chunks, i)) + b.epics
      && bs[0] == (if i == 0 then b else AI.Answers(ai, chunks, i)[0])
      && MergedName(Names(bs)) == (if i == 0 then b.projectName
           else var running := MergedName(Names(AI.Answers(ai, chunks, i)));
                if b.projectName != running then running + " (Merged)" else running)
  {
    var before := AI.Answers(ai, chunks, i);
    var bs := before + [b];
    assert bs[..i] == before;
    assert Names(bs)[..i] == Names(before);
  }

  /** The final totals loop: the number of stories and the sum of their
      story points over the given epics. */
  method Totals(epics: seq<Epic>) returns (stories: int, points: int)
    ensures stories == StoryCount(epics) && points == StoryPoints(epics)
  {
    stories, points := 0, 0;
    var k := 0;
    while k < |epics|
      invariant k <= |epics|
      invariant stories == StoryCount(epics[..k]) && points == StoryPoints(epics[..k])
    {
      var epic := epics[k];
      stories := stories + |epic.stories|;
      var j := 0;
      while j < |epic.stories|
        invariant j <= |epic.stories|
        invariant points == StoryPoints(epics[..k]) + PointsOf(epic.stories[..j])
      {
        PointsOfAppend(epic.stories[..j], [epic.stories[j]]);
        assert epic.stories[..j + 1] == epic.stories[..j] + [epic.stories[j]];
        points := points + epic.stories[j].storyPoints;
        j := j + 1;
      }
      assert epic.stories[..j] == epic.stories;
      StoryCountAppend(epics[..k], [epic]);
      StoryPointsAppend(epics[..k], [epic]);
      assert epics[..k + 1] == epics[..k] + [epic];
      k := k + 1;
    }
    assert epics[..k] == epics;
  }
}
