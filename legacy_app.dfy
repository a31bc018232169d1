/** The single-file command-line application (main.go): an `App` holding the
    configuration, which loads it with defaults, cuts large descriptions
    into line-aligned chunks, asks the AI provider about each chunk, merges
    the answers, and creates the tickets.

    Its merge, story deduplication, fence stripping, membership scan and
    parent guard are the same as the service layer's and are shared with it.
    The outside world (the AI provider, the JSON decoder of its own breakdown
    type, and the tracker) is an `Environment` of oracles. */
module LegacyApp {
  import opened Models
  import opened Text
  import Config
  import Retry
  import Merging
  import AI = AiService
  import Jira = JiraService

  /** main.go's ProjectBreakdown; the processing time stamp is left out. */
  datatype LegacyBreakdown = LegacyBreakdown(
    projectName: string,
    overview: string,
    epics: seq<Epic>,
    totalChunks: int,
    inputFileSize: int,
    processingMode: string)

  datatype Environment = Environment(
    respond: (AiRequest, nat) -> Result<string>,
    parse: string -> Result<LegacyBreakdown>,
    tracker: Jira.Tracker)

  /** The bullet written before each acceptance criterion. The source file
      holds the bullet glyph mis-encoded (differently from the service
      layer): these are the bytes of its string literal, a space included. */
  const LegacyBullet := "\U{E2}\U{80}\U{9A}\U{C3}\U{84}\U{C2}\U{A2} "

  /** Pauses of the ticket loop, in milliseconds. */
  const StoryPauseMillis := 100
  const EpicPauseMillis := 500

  /** The defaults loadConfig fills in: every zero tuning value and every
      empty processing setting gets its default; everything else, the
      credentials included, is kept. */
  function WithDefaults(c: Config.Config): (d: Config.Config)
    ensures d.anthropic.timeoutSeconds != 0 && d.anthropic.maxTokens != 0 && d.anthropic.chunkSizeChars != 0
    ensures d.anthropic.retryCount != 0 && d.anthropic.retryDelaySeconds != 0 && d.jira.timeout != 0
    ensures d.processing.mode != "" && d.processing.outputDir != ""
    ensures c.anthropic.timeoutSeconds != 0 ==> d.anthropic.timeoutSeconds == c.anthropic.timeoutSeconds
    ensures c.anthropic.maxTokens != 0 ==> d.anthropic.maxTokens == c.anthropic.maxTokens
    ensures c.anthropic.chunkSizeChars != 0 ==> d.anthropic.chunkSizeChars == c.anthropic.chunkSizeChars
    ensures c.anthropic.retryCount != 0 ==> d.anthropic.retryCount == c.anthropic.retryCount
    ensures c.anthropic.retryDelaySeconds != 0 ==> d.anthropic.retryDelaySeconds == c.anthropic.retryDelaySeconds
    ensures c.jira.timeout != 0 ==> d.jira.timeout == c.jira.timeout
    ensures c.processing.mode != "" ==> d.processing.mode == c.processing.mode
    ensures c.processing.outputDir != "" ==> d.processing.outputDir == c.processing.outputDir
    ensures d.anthropic.apiKey == c.anthropic.apiKey && d.anthropic.model == c.anthropic.model
    ensures d.jira.(timeout := 0) == c.jira.(timeout := 0)
    ensures d.processing.saveIntermediate == c.processing.saveIntermediate
  {
    var a := c.anthropic;
    var j := c.jira;
    var p := c.processing;
    Config.Config(
      a.(timeoutSeconds := if a.timeoutSeconds == 0 then 120 else a.timeoutSeconds,
         maxTokens := if a.maxTokens == 0 then 4000 else a.maxTokens,
         chunkSizeChars := if a.chunkSizeChars == 0 then 15000 else a.chunkSizeChars,
         retryCount := if a.retryCount == 0 then 3 else a.retryCount,
         retryDelaySeconds := if a.retryDelaySeconds == 0 then 5 else a.retryDelaySeconds),
      j.(timeout := if j.timeout == 0 then 30 else j.timeout),
      p.(mode := if p.mode == "" then "full" else p.mode,
         outputDir := if p.outputDir == "" then "./output" else p.outputDir))
  }

  /** Filling in defaults twice is filling them in once. */
  lemma WithDefaultsIdempotent(c: Config.Config)
    ensures WithDefaults(WithDefaults(c)) == WithDefaults(c)
  {
  }

  /** Defaults never fill in a credential: a configuration that the service
      layer's validation refuses is still refused after defaulting, for the
      same field. */
  lemma WithDefaultsKeepsValidation(c: Config.Config)
    ensures Config.Validate(WithDefaults(c)) == Config.Validate(c)
  {
    var d := WithDefaults(c);
    assert forall f :: Config.FieldValue(d, f) == Config.FieldValue(c, f) by {
      assert d.jira.baseURL == c.jira.baseURL && d.jira.username == c.jira.username;
      assert d.jira.apiToken == c.jira.apiToken && d.jira.projectKey == c.jira.projectKey;
    }
  }

  /** Defaults are filled in only for zero values: a negative chunk size or
      retry count is kept. */
  lemma WithDefaultsKeepsNegative(c: Config.Config)
    requires c.anthropic.retryCount < 0
    ensures WithDefaults(c).anthropic.retryCount == c.anthropic.retryCount
  {
  }

  /** The greedy line packing of splitIntoChunks: each line is written with
      a newline after it; before a line that would push a non-empty chunk
      past `size`, the chunk is closed. */
  function Pack(lines: seq<string>, size: int, chunks: seq<string>, current: string): seq<string>
    decreases |lines|
  {
    if lines == [] then (if |current| > 0 then chunks + [current] else chunks)
    else
      var line := lines[0] + "\n";
      if |current| + |line| > size && |current| > 0 then Pack(lines[1..], size, chunks + [current], line)
      else Pack(lines[1..], size, chunks, current + line)
  }

  /** splitIntoChunks as a function: the content itself when it fits, the
      packed lines otherwise. */
  function Split(content: string, size: int): seq<string> {
    if |content| <= size then [content] else Pack(Lines(content), size, [], "")
  }

  /** The chunks written one after the other. */
  function Concat(chunks: seq<string>): string {
    if chunks == [] then "" else Concat(chunks[..|chunks| - 1]) + chunks[|chunks| - 1]
  }

  lemma ConcatSnoc(chunks: seq<string>, c: string)
    ensures Concat(chunks + [c]) == Concat(chunks) + c
  {
    assert (chunks + [c])[..|chunks|] == chunks;
  }

  lemma {:induction false} PackConcat(lines: seq<string>, size: int, chunks: seq<string>, current: string)
    ensures Concat(Pack(lines, size, chunks, current)) == Concat(chunks) + current + Terminated(lines)
    decreases |lines|
  {
    if lines == [] {
      if |current| > 0 {
        ConcatSnoc(chunks, current);
      }
    } else {
      var line := lines[0] + "\n";
      if |current| + |line| > size && |current| > 0 {
        PackConcat(lines[1..], size, chunks + [current], line);
        ConcatSnoc(chunks, current);
      } else {
        PackConcat(lines[1..], size, chunks, current + line);
      }
      Regroup(Concat(chunks), current, line, Terminated(lines[1..]));
    }
  }

  lemma Regroup(c: string, current: string, line: string, rest: string)
    ensures (c + current) + line + rest == c + current + (line + rest)
    ensures c + (current + line) + rest == c + current + (line + rest)
  {
  }

  /** Cutting loses and reorders nothing: written one after the other, the
      chunks are the content followed by one newline (every line, the last
      included, is written with a newline after it). */
  lemma SplitConcat(content: string, size: int)
    requires |content| > size
    ensures Concat(Split(content, size)) == content + "\n"
  {
    PackConcat(Lines(content), size, [], "");
    TerminatedLines(content);
  }

  /** A well-formed chunk: non-empty, ending with a newline, and either within
      the size or a single line that is too long on its own. */
  predicate WellFormed(chunk: string, size: int) {
    && |chunk| > 0
    && chunk[|chunk| - 1] == '\n'
    && (|chunk| <= size || '\n' !in chunk[..|chunk| - 1])
  }

  lemma {:induction false} PackWellFormed(lines: seq<string>, size: int, chunks: seq<string>, current: string)
    requires forall i :: 0 <= i < |lines| ==> '\n' !in lines[i]
    requires forall i :: 0 <= i < |chunks| ==> WellFormed(chunks[i], size)
    requires current == "" || WellFormed(current, size)
    ensures forall i :: 0 <= i < |Pack(lines, size, chunks, current)| ==>
              WellFormed(Pack(lines, size, chunks, current)[i], size)
    decreases |lines|
  {
    if lines != [] {
      var line := lines[0] + "\n";
      assert line[..|line| - 1] == lines[0];
      if |current| + |line| > size && |current| > 0 {
        PackWellFormed(lines[1..], size, chunks + [current], line);
      } else {
        if current != "" {
          assert (current + line)[|current + line| - 1] == '\n';
        } else {
          assert current + line == line;
        }
        PackWellFormed(lines[1..], size, chunks, current + line);
      }
    }
  }

  /** When the content is cut, every chunk is non-empty, ends with a newline
      and holds at most `size` characters, unless it is a single line that is
      longer than that on its own; and there is at least one chunk. */
  lemma SplitWellFormed(content: string, size: int)
    requires |content| > size
    ensures |Split(content, size)| >= 1
    ensures forall i :: 0 <= i < |Split(content, size)| ==> WellFormed(Split(content, size)[i], size)
  {
    PackWellFormed(Lines(content), size, [], "");
    SplitConcat(content, size);
  }

  /** The first line of a chunk, with its newline. */
  function FirstLine(chunk: string): string {
    if chunk == [] then "" else if chunk[0] == '\n' then "\n" else [chunk[0]] + FirstLine(chunk[1..])
  }

  /** Greedy packing: a chunk is closed only when the first line of the next
      chunk would not have fitted after it. */
  predicate Greedy(chunks: seq<string>, size: int) {
    forall i :: 0 <= i && i + 1 < |chunks| ==> |chunks[i]| + |FirstLine(chunks[i + 1])| > size
  }

  lemma SplitGreedy(content: string, size: int)
    requires |content| > size
    ensures Greedy(Split(content, size), size)
  {
    PackGreedy(Lines(content), size, [], "");
  }

  lemma {:induction false} FirstLineOf(line: string, rest: string)
    requires '\n' !in line
    ensures FirstLine(line + "\n" + rest) == line + "\n"
  {
    if line != [] {
      assert (line + "\n" + rest)[1..] == line[1..] + "\n" + rest;
      FirstLineOf(line[1..], rest);
    } else {
      assert line + "\n" + rest == "\n" + rest;
    }
  }

  lemma {:induction false} FirstLineAppend(a: string, b: string)
    requires '\n' in a
    ensures FirstLine(a + b) == FirstLine(a)
  {
    if a[0] != '\n' {
      assert (a + b)[1..] == a[1..] + b;
      FirstLineAppend(a[1..], b);
    }
  }

  lemma GreedySnoc(chunks: seq<string>, c: string, size: int)
    requires Greedy(chunks, size)
    requires chunks != [] ==> |chunks[|chunks| - 1]| + |FirstLine(c)| > size
    ensures Greedy(chunks + [c], size)
  {
    var cs := chunks + [c];
    forall i | 0 <= i && i + 1 < |cs|
      ensures |cs[i]| + |FirstLine(cs[i + 1])| > size
    {
      if i + 1 < |chunks| {
        assert cs[i] == chunks[i] && cs[i + 1] == chunks[i + 1];
      }
    }
  }

  lemma {:induction false} PackGreedy(lines: seq<string>, size: int, chunks: seq<string>, current: string)
    requires forall i :: 0 <= i < |lines| ==> '\n' !in lines[i]
    requires Greedy(chunks, size)
    requires chunks != [] ==> current != "" && |chunks[|chunks| - 1]| + |FirstLine(current)| > size
    requires current != "" ==> '\n' in current
    ensures Greedy(Pack(lines, size, chunks, current), size)
    decreases |lines|
  {
    if lines == [] {
      if |current| > 0 {
        GreedySnoc(chunks, current, size);
      }
    } else {
      var line := lines[0] + "\n";
      FirstLineOf(lines[0], "");
      assert lines[0] + "\n" + "" == line;
      assert line[|line| - 1] == '\n';
      if |current| + |line| > size && |current| > 0 {
        GreedySnoc(chunks, current, size);
        PackGreedy(lines[1..], size, chunks + [current], line);
      } else {
        if current != "" {
          FirstLineAppend(current, line);
        } else {
          assert current + line == line;
        }
        assert (current + line)[|current + line| - 1] == '\n';
        PackGreedy(lines[1..], size, chunks, current + line);
      }
    }
  }

  /** The epics of one answer tagged with the chunk they came from. */
  function Tag(epics: seq<Epic>, chunk: int): (tagged: seq<Epic>)
    ensures |tagged| == |epics|
    ensures forall j :: 0 <= j < |epics| ==> tagged[j] == epics[j].(chunk := chunk)
  {
    seq(|epics|, j requires 0 <= j < |epics| => epics[j].(chunk := chunk))
  }

  /** The epics of all answers, in chunk order, each tagged with its 1-based
      chunk index. */
  function TaggedEpics(bs: seq<LegacyBreakdown>): seq<Epic> {
    if bs == [] then [] else TaggedEpics(bs[..|bs| - 1]) + Tag(bs[|bs| - 1].epics, |bs|)
  }

  /** Tagging keeps every epic and records where it came from: the epics of
      the answers are those of each answer, in order, with their chunk. */
  lemma {:induction false} TaggedEpicsCount(bs: seq<LegacyBreakdown>)
    ensures |TaggedEpics(bs)| == |AllEpicsOf(bs)|
    ensures forall j :: 0 <= j < |TaggedEpics(bs)| ==>
              TaggedEpics(bs)[j].(chunk := 0) == AllEpicsOf(bs)[j].(chunk := 0)
              && 1 <= TaggedEpics(bs)[j].chunk <= |bs|
  {
    if bs != [] {
      var init := bs[..|bs| - 1];
      TaggedEpicsCount(init);
      var t := TaggedEpics(init);
      var a := AllEpicsOf(init);
      var last := bs[|bs| - 1].epics;
      forall j | 0 <= j < |TaggedEpics(bs)|
        ensures TaggedEpics(bs)[j].(chunk := 0) == AllEpicsOf(bs)[j].(chunk := 0)
        ensures 1 <= TaggedEpics(bs)[j].chunk <= |bs|
      {
        if j >= |t| {
          assert TaggedEpics(bs)[j] == last[j - |t|].(chunk := |bs|);
          assert AllEpicsOf(bs)[j] == last[j - |a|];
        } else {
          assert TaggedEpics(bs)[j] == t[j];
          assert AllEpicsOf(bs)[j] == a[j];
        }
      }
    }
  }

  /** The untagged epics of all answers, in chunk order. */
  function AllEpicsOf(bs: seq<LegacyBreakdown>): seq<Epic> {
    if bs == [] then [] else AllEpicsOf(bs[..|bs| - 1]) + bs[|bs| - 1].epics
  }

  /** The outcome of analysing `chunks` of a content of `contentSize`
      characters: success exactly when every chunk was answered, otherwise
      the first chunk that failed after its retries names the failure. On
      success, the name and overview are chunk 1's, the epics are the merged
      tagged epics of all chunks, and the chunk count, the content size and
      the processing mode are recorded. */
  predicate ChunkedAnalysis(ai: AI.AIService<LegacyBreakdown>, chunks: seq<string>, contentSize: int,
                            mode: string, r: Result<LegacyBreakdown>)
  {
    && |chunks| >= 1
    && (r.Success? <==> AI.Answered(ai, chunks, |chunks|))
    && (r.Failure? ==> exists i :: (0 <= i < |chunks| && AI.Answered(ai, chunks, i)
          && AI.Answer(ai, chunks, i).Failure?
          && r.error == ChunkFailed(i + 1, AI.Answer(ai, chunks, i).error)))
    && (r.Success? ==>
          var bs := AI.Answers(ai, chunks, |chunks|);
          r.value == LegacyBreakdown(bs[0].projectName, bs[0].overview, Merging.MergeSpec(TaggedEpics(bs)),
                                     |chunks|, contentSize, mode))
  }

  /** The pauses after the stories of one epic: one after every story that
      was created. */
  function StoryPauses(s: Jira.JiraService, stories: seq<Story>, epicKey: string): seq<int> {
    if stories == [] then []
    else
      var st := stories[|stories| - 1];
      StoryPauses(s, stories[..|stories| - 1], epicKey)
      + (if Jira.Created(s, Jira.TaskIssue(s, st.title, Jira.FullDescription(LegacyBullet, st), epicKey)).Success?
         then [StoryPauseMillis] else [])
  }

  /** The pauses of createJiraTickets: the story pauses of each created epic,
      and a longer pause after every epic but the last. */
  function Pauses(s: Jira.JiraService, epics: seq<Epic>): seq<int> {
    if epics == [] then []
    else
      var e := epics[0];
      match Jira.Created(s, Jira.EpicIssue(s, e.title, e.description))
      case Failure(_) => []
      case Success(epicKey) =>
        StoryPauses(s, e.stories, epicKey) + (if |epics| > 1 then [EpicPauseMillis] else []) + Pauses(s, epics[1..])
  }

  lemma {:induction false} StoryPausesBound(s: Jira.JiraService, stories: seq<Story>, epicKey: string)
    ensures |StoryPauses(s, stories, epicKey)| <= |stories|
    ensures forall d :: d in StoryPauses(s, stories, epicKey) ==> d == StoryPauseMillis
  {
    if stories != [] {
      StoryPausesBound(s, stories[..|stories| - 1], epicKey);
    }
  }

  /** At most one pause per story and one per epic after the first, each of
      100 or 500 ms; a run that creates every epic pauses 500 ms exactly
      between consecutive epics. */
  lemma {:induction false} PausesBound(s: Jira.JiraService, epics: seq<Epic>)
    ensures |Pauses(s, epics)| <= |epics| + StoryCount(epics)
    ensures forall d :: d in Pauses(s, epics) ==> d == StoryPauseMillis || d == EpicPauseMillis
    ensures Jira.Submitted(s, LegacyBullet, epics).0 == None ==>
              multiset(Pauses(s, epics))[EpicPauseMillis] == (if epics == [] then 0 else |epics| - 1)
  {
    if epics != [] {
      var e := epics[0];
      PausesBound(s, epics[1..]);
      match Jira.Created(s, Jira.EpicIssue(s, e.title, e.description))
      case Failure(_) =>
      case Success(epicKey) =>
        StoryPausesBound(s, e.stories, epicKey);
        var sp := StoryPauses(s, e.stories, epicKey);
        assert multiset(sp)[EpicPauseMillis] == 0 by {
          assert EpicPauseMillis !in sp;
        }
    }
  }

  /** The chunk loop of analyzeProject, followed by the merge: each chunk
      is processed with retries, its epics are tagged with its 1-based index,
      and a pause of RetryDelaySeconds follows every chunk but the last. */
  method AnalyzeChunks(ai: AI.AIService<LegacyBreakdown>, chunks: seq<string>, contentSize: int, mode: string)
    returns (r: Result<LegacyBreakdown>, ghost pauses: seq<int>)
    requires |chunks| >= 1
    ensures ChunkedAnalysis(ai, chunks, contentSize, mode, r)
    ensures r.Success? ==> |pauses| == |chunks| - 1
    ensures r.Failure? ==> r.error.ChunkFailed? && |pauses| == r.error.chunk - 1
    ensures forall d :: d in pauses ==> d == ai.config.retryDelaySeconds
  {
    pauses := [];
    var allEpics: seq<Epic> := [];
    var projectName := "";
    var overview := "";
    var i := 0;
    while i < |chunks|
      invariant i <= |chunks|
      invariant AI.Answered(ai, chunks, i)
      invariant allEpics == TaggedEpics(AI.Answers(ai, chunks, i))
      invariant i > 0 ==> projectName == AI.Answers(ai, chunks, i)[0].projectName
                          && overview == AI.Answers(ai, chunks, i)[0].overview
      invariant |pauses| == (if i == |chunks| then i - 1 else i)
      invariant forall d :: d in pauses ==> d == ai.config.retryDelaySeconds
    {
      var breakdown := AI.ProcessChunk(ai, chunks, i);
      if breakdown.Failure? {
        ChunkedFailure(ai, chunks, contentSize, mode, i);
        return Failure(ChunkFailed(i + 1, breakdown.error)), pauses;
      }
      var b := breakdown.value;
      TaggedStep(ai, chunks, i, b);
      if i == 0 {
        projectName := b.projectName;
        overview := b.overview;
      }
      var epics := TagEpics(b.epics, i + 1);
      allEpics := allEpics + epics;
      if i < |chunks| - 1 {
        pauses := pauses + [ai.config.retryDelaySeconds];
      }
      i := i + 1;
    }
    var mergedEpics := AI.MergeEpics(allEpics);
    r := Success(LegacyBreakdown(projectName, overview, mergedEpics, |chunks|, contentSize, mode));
    ChunkedSuccess(ai, chunks, contentSize, mode, r.value);
  }

  lemma ChunkedFailure(ai: AI.AIService<LegacyBreakdown>, chunks: seq<string>, contentSize: int, mode: string, i: nat)
    requires i < |chunks| && AI.Answered(ai, chunks, i) && AI.Answer(ai, chunks, i).Failure?
    ensures ChunkedAnalysis(ai, chunks, contentSize, mode, Failure(ChunkFailed(i + 1, AI.Answer(ai, chunks, i).error)))
  {
    assert !AI.Answered(ai, chunks, |chunks|);
  }

  lemma ChunkedSuccess(ai: AI.AIService<LegacyBreakdown>, chunks: seq<string>, contentSize: int, mode: string,
                       b: LegacyBreakdown)
    requires |chunks| >= 1 && AI.Answered(ai, chunks, |chunks|)
    requires var bs := AI.Answers(ai, chunks, |chunks|);
      b == LegacyBreakdown(bs[0].projectName, bs[0].overview, Merging.MergeSpec(TaggedEpics(bs)),
                           |chunks|, contentSize, mode)
    ensures ChunkedAnalysis(ai, chunks, contentSize, mode, Success(b))
  {
  }

  /** The tagging loop: every epic of the answer records the chunk index. */
  method TagEpics(epics: seq<Epic>, chunk: int) returns (tagged: seq<Epic>)
    ensures tagged == Tag(epics, chunk)
  {
    tagged := epics;
    for j := 0 to |tagged|
      invariant |tagged| == |epics|
      invariant forall m :: 0 <= m < j ==> tagged[m] == epics[m].(chunk := chunk)
      invariant forall m :: j <= m < |tagged| ==> tagged[m] == epics[m]
    {
      tagged := tagged[j := tagged[j].(chunk := chunk)];
    }
  }

  /** One more answered chunk extends the answers, and their tagged epics by
      its own, tagged with its index. */
  lemma TaggedStep(ai: AI.AIService<LegacyBreakdown>, chunks: seq<string>, i: nat, b: LegacyBreakdown)
    requires i < |chunks| && AI.Answered(ai, chunks, i) && AI.Answer(ai, chunks, i) == Success(b)
    ensures AI.Answered(ai, chunks, i + 1)
    ensures var bs := AI.Answers(ai, chunks, i + 1);
      && TaggedEpics(bs) == TaggedEpics(AI.Answers(ai, chunks, i)) + Tag(b.epics, i + 1)
      && bs[0] == (if i == 0 then b else AI.Answers(ai, chunks, i)[0])
  {
    AI.AnswersSnoc(ai, chunks, i, b);
    var bs := AI.Answers(ai, chunks, i + 1);
    assert bs[..i] == AI.Answers(ai, chunks, i);
  }

  /** The epic and story loops of createJiraTickets, with their pauses. */
  method CreatePacedTickets(s: Jira.JiraService, epics: seq<Epic>)
    returns (err: Option<Error>, ghost submitted: seq<JiraIssue>, ghost pauses: seq<int>)
    ensures err == Jira.Submitted(s, LegacyBullet, epics).0
    ensures submitted == Jira.Submitted(s, LegacyBullet, epics).1
    ensures pauses == Pauses(s, epics)
  {
    submitted, pauses := [], [];
    var i := 0;
    Jira.SubmittedStart(s, LegacyBullet, epics);
    PausesStart(s, epics);
    while i < |epics|
      invariant i <= |epics|
      invariant Jira.SubmittedFrom(s, LegacyBullet, epics, i, submitted)
      invariant PausesFrom(s, epics, i, pauses)
    {
      var epic := epics[i];
      var epicKey := Jira.CreateEpic(s, epic.title, epic.description, epic.priority);
      if epicKey.Failure? {
        Jira.SubmittedStop(s, LegacyBullet, epics, i, submitted);
        PausesStop(s, epics, i, pauses);
        return Some(EpicFailed(epic.title, epicKey.error)), submitted + [Jira.EpicIssue(s, epic.title, epic.description)], pauses;
      }
      Jira.SubmittedStep(s, LegacyBullet, epics, i, submitted, epicKey.value);
      PausesStep(s, epics, i, pauses, epicKey.value);
      ghost var storyPauses;
      submitted, storyPauses := CreatePacedStories(s, epic.stories, epicKey.value,
                                                   submitted + [Jira.EpicIssue(s, epic.title, epic.description)]);
      pauses := pauses + storyPauses;
      if i < |epics| - 1 {
        pauses := pauses + [EpicPauseMillis];
      }
      i := i + 1;
    }
    Jira.SubmittedEnd(s, LegacyBullet, epics, submitted);
    PausesEnd(s, epics, pauses);
    err := None;
  }

  /** The pause part of the epic loop's invariant. */
  predicate PausesFrom(s: Jira.JiraService, epics: seq<Epic>, i: nat, done: seq<int>)
    requires i <= |epics|
  {
    Pauses(s, epics) == done + Pauses(s, epics[i..])
  }

  lemma PausesStart(s: Jira.JiraService, epics: seq<Epic>)
    ensures PausesFrom(s, epics, 0, [])
  {
    assert epics[0..] == epics;
  }

  lemma PausesEnd(s: Jira.JiraService, epics: seq<Epic>, done: seq<int>)
    requires PausesFrom(s, epics, |epics|, done)
    ensures Pauses(s, epics) == done
  {
    assert epics[|epics|..] == [];
  }

  lemma PausesStep(s: Jira.JiraService, epics: seq<Epic>, i: nat, done: seq<int>, epicKey: string)
    requires i < |epics| && PausesFrom(s, epics, i, done)
    requires Jira.Created(s, Jira.EpicIssue(s, epics[i].title, epics[i].description)) == Success(epicKey)
    ensures PausesFrom(s, epics, i + 1, done + StoryPauses(s, epics[i].stories, epicKey)
                                        + (if i < |epics| - 1 then [EpicPauseMillis] else []))
  {
    assert epics[i..][0] == epics[i] && epics[i..][1..] == epics[i + 1..];
    var sp := StoryPauses(s, epics[i].stories, epicKey);
    var ep: seq<int> := if i < |epics| - 1 then [EpicPauseMillis] else [];
    var rest := Pauses(s, epics[i + 1..]);
    assert done + (sp + ep + rest) == done + sp + ep + rest;
  }

  lemma PausesStop(s: Jira.JiraService, epics: seq<Epic>, i: nat, done: seq<int>)
    requires i < |epics| && PausesFrom(s, epics, i, done)
    requires Jira.Created(s, Jira.EpicIssue(s, epics[i].title, epics[i].description)).Failure?
    ensures Pauses(s, epics) == done
  {
    assert epics[i..][0] == epics[i];
  }

  /** The story loop of createJiraTickets: a task per story, linked to the
      epic, and a pause after each one created. */
  method CreatePacedStories(s: Jira.JiraService, stories: seq<Story>, epicKey: string, ghost before: seq<JiraIssue>)
    returns (ghost submitted: seq<JiraIssue>, ghost pauses: seq<int>)
    ensures submitted == before + Jira.StoryIssues(s, LegacyBullet, stories, epicKey)
    ensures pauses == StoryPauses(s, stories, epicKey)
  {
    submitted, pauses := before, [];
    for j := 0 to |stories|
      invariant submitted == before + Jira.StoryIssues(s, LegacyBullet, stories, epicKey)[..j]
      invariant pauses == StoryPauses(s, stories[..j], epicKey)
    {
      var story := stories[j];
      var fullDescription := Jira.DescribeStory(LegacyBullet, story);
      var storyKey := Jira.CreateTask(s, story.title, fullDescription, story.priority, epicKey);
      submitted := submitted + [Jira.TaskIssue(s, story.title, fullDescription, epicKey)];
      assert Jira.StoryIssues(s, LegacyBullet, stories, epicKey)[..j + 1]
          == Jira.StoryIssues(s, LegacyBullet, stories, epicKey)[..j] + [Jira.TaskIssue(s, story.title, fullDescription, epicKey)];
      assert stories[..j + 1][..j] == stories[..j];
      if storyKey.Failure? {
        continue;
      }
      pauses := pauses + [StoryPauseMillis];
    }
    assert Jira.StoryIssues(s, LegacyBullet, stories, epicKey)[..|stories|] == Jira.StoryIssues(s, LegacyBullet, stories, epicKey);
    assert stories[..|stories|] == stories;
  }

  class App {
    /** The loaded configuration. */
    var config: Config.Config
    /** The outside world the application talks to. */
    const env: Environment

    /** A new application: every configuration value is zero or empty. */
    constructor (env: Environment)
      ensures this.env == env
      ensures config == Config.Config(Config.AnthropicConfig("", "", 0, 0, 0, 0, 0),
                                      Config.JiraConfig("", "", "", "", 0),
                                      Config.ProcessingConfig("", "", false))
    {
      this.env := env;
      config := Config.Config(Config.AnthropicConfig("", "", 0, 0, 0, 0, 0),
                              Config.JiraConfig("", "", "", "", 0),
                              Config.ProcessingConfig("", "", false));
    }

    /** loadConfig on the outcome of reading and parsing the file: a failure
        is returned and the configuration kept; otherwise the parsed
        configuration with its defaults filled in is installed. No
        validation takes place. */
    method LoadConfig(parsed: Result<Config.Config>) returns (err: Option<Error>)
      modifies this
      ensures parsed.Failure? ==> err == Some(parsed.error) && config == old(config)
      ensures parsed.Success? ==> err == None && config == WithDefaults(parsed.value)
    {
      if parsed.Failure? {
        return Some(parsed.error);
      }
      config := parsed.value;
      if config.anthropic.timeoutSeconds == 0 {
        config := config.(anthropic := config.anthropic.(timeoutSeconds := 120));
      }
      if config.anthropic.maxTokens == 0 {
        config := config.(anthropic := config.anthropic.(maxTokens := 4000));
      }
      if config.anthropic.chunkSizeChars == 0 {
        config := config.(anthropic := config.anthropic.(chunkSizeChars := 15000));
      }
      if config.anthropic.retryCount == 0 {
        config := config.(anthropic := config.anthropic.(retryCount := 3));
      }
      if config.anthropic.retryDelaySeconds == 0 {
        config := config.(anthropic := config.anthropic.(retryDelaySeconds := 5));
      }
      if config.jira.timeout == 0 {
        config := config.(jira := config.jira.(timeout := 30));
      }
      if config.processing.mode == "" {
        config := config.(processing := config.processing.(mode := "full"));
      }
      if config.processing.outputDir == "" {
        config := config.(processing := config.processing.(outputDir := "./output"));
      }
      err := None;
    }

    /** The AI provider as configured. */
    function Ai(): AI.AIService<LegacyBreakdown>
      reads this
    {
      AI.AIService(config.anthropic, env.respond, env.parse)
    }

    /** The tracker as configured. */
    function Tracker(): Jira.JiraService
      reads this
    {
      Jira.JiraService(config.jira, env.tracker)
    }

    /** splitIntoChunks: the line loop with its running chunk and size. */
    method SplitIntoChunks(content: string, chunkSize: int) returns (chunks: seq<string>)
      ensures chunks == Split(content, chunkSize)
    {
      if |content| <= chunkSize {
        return [content];
      }
      chunks := [];
      var lines := Lines(content);
      var currentChunk := "";
      var currentSize := 0;
      for i := 0 to |lines|
        invariant currentSize == |currentChunk|
        invariant Pack(lines[i..], chunkSize, chunks, currentChunk) == Pack(lines, chunkSize, [], "")
      {
        assert lines[i..][0] == lines[i] && lines[i..][1..] == lines[i + 1..];
        var line := lines[i];
        var lineSize := |line| + 1;
        if currentSize + lineSize > chunkSize && currentSize > 0 {
          chunks := chunks + [currentChunk];
          currentChunk := "";
          currentSize := 0;
        }
        assert currentChunk + (line + "\n") == if currentChunk == "" then line + "\n" else currentChunk + (line + "\n");
        currentChunk := currentChunk + (line + "\n");
        currentSize := currentSize + lineSize;
      }
      assert lines[|lines|..] == [];
      if currentSize > 0 {
        chunks := chunks + [currentChunk];
      }
    }

    /** processChunkWithRetry: the configured number of attempts, the
        configured delay apart; the first success is returned, and a failure
        comes only after every attempt was made. */
    method ProcessChunkWithRetry(content: string, chunkIndex: int, totalChunks: int)
      returns (r: Result<LegacyBreakdown>, ghost calls: nat, ghost sleeps: seq<int>)
      ensures r == Retry.Outcome(AI.Attempts(Ai(), AiRequest(content, chunkIndex, totalChunks)),
                                 config.anthropic.retryCount)
      ensures calls == Retry.Calls(AI.Attempts(Ai(), AiRequest(content, chunkIndex, totalChunks)),
                                   config.anthropic.retryCount)
      ensures calls <= (if config.anthropic.retryCount > 0 then config.anthropic.retryCount else 0)
      ensures r.Success? <==> exists j :: 0 <= j < config.anthropic.retryCount
                                       && AI.ProcessWithAI(Ai(), AiRequest(content, chunkIndex, totalChunks), j).Success?
      ensures r.Success? ==> calls >= 1 && r == AI.ProcessWithAI(Ai(), AiRequest(content, chunkIndex, totalChunks), calls - 1)
      ensures r.Success? ==> forall j :: 0 <= j < calls - 1
                                         ==> AI.ProcessWithAI(Ai(), AiRequest(content, chunkIndex, totalChunks), j).Failure?
      ensures r.Failure? ==> r.error == Exhausted(config.anthropic.retryCount,
                                                  Retry.LastError(AI.Attempts(Ai(), AiRequest(content, chunkIndex, totalChunks)),
                                                                  config.anthropic.retryCount))
      ensures r.Failure? ==> calls == (if config.anthropic.retryCount > 0 then config.anthropic.retryCount else 0)
      ensures |sleeps| == (if calls == 0 then 0 else calls - 1)
      ensures forall d :: d in sleeps ==> d == config.anthropic.retryDelaySeconds
    {
      r, calls, sleeps := AI.ProcessWithRetry(Ai(), AiRequest(content, chunkIndex, totalChunks));
    }

    /** analyzeProject: content that fits in one chunk is sent once, without
        retries, and the AI's breakdown is returned as it is. Larger content
        is split into line-aligned chunks, each processed with retries and
        followed, except after the last, by a pause of RetryDelaySeconds. */
    method AnalyzeProject(content: string) returns (r: Result<LegacyBreakdown>, ghost pauses: seq<int>)
      ensures |content| <= config.anthropic.chunkSizeChars ==>
                r == AI.ProcessWithAI(Ai(), AiRequest(content, 1, 1), 0) && pauses == []
      ensures |content| > config.anthropic.chunkSizeChars ==>
                && ChunkedAnalysis(Ai(), Split(content, config.anthropic.chunkSizeChars), |content|,
                                   config.processing.mode, r)
                && (r.Success? ==> |pauses| == |Split(content, config.anthropic.chunkSizeChars)| - 1)
                && (r.Failure? ==> r.error.ChunkFailed? && |pauses| == r.error.chunk - 1)
      ensures forall d :: d in pauses ==> d == config.anthropic.retryDelaySeconds
    {
      var chunkSize := config.anthropic.chunkSizeChars;
      pauses := [];
      if |content| <= chunkSize {
        r := AI.ProcessWithAI(Ai(), AiRequest(content, 1, 1), 0);
        return;
      }
      var chunks := SplitIntoChunks(content, chunkSize);
      SplitWellFormed(content, chunkSize);
      r, pauses := AnalyzeChunks(Ai(), chunks, |content|, config.processing.mode);
    }

    /** mergeEpics: the same merge as the service layer's. */
    method MergeEpics(epics: seq<Epic>) returns (result: seq<Epic>)
      ensures result == Merging.MergeSpec(epics)
    {
      result := AI.MergeEpics(epics);
    }

    /** deduplicateStories: the same deduplication as the service layer's. */
    method DeduplicateStories(stories: seq<Story>) returns (result: seq<Story>)
      ensures result == Merging.Dedup(stories)
    {
      result := AI.DeduplicateStories(stories);
    }

    /** testJiraConnection: the same checks as the service layer's, with the
        tracker's errors returned unwrapped. */
    method TestJiraConnection() returns (err: Option<Error>)
      ensures err == None <==> Jira.Connected(Tracker())
      ensures env.tracker.projects.Failure? ==> err == Some(env.tracker.projects.error)
      ensures env.tracker.projects.Success? && !Jira.Listed(env.tracker.projects.value, config.jira.projectKey) ==>
                err == Some(ProjectNotFound(config.jira.projectKey))
      ensures env.tracker.projects.Success? && Jira.Listed(env.tracker.projects.value, config.jira.projectKey)
              && env.tracker.projectInfo(config.jira.projectKey).Failure? ==>
                err == Some(env.tracker.projectInfo(config.jira.projectKey).error)
    {
      if env.tracker.projects.Failure? {
        return Some(env.tracker.projects.error);
      }
      var projectFound := Jira.ScanProjects(env.tracker.projects.value, config.jira.projectKey);
      if !projectFound {
        return Some(ProjectNotFound(config.jira.projectKey));
      }
      var info := env.tracker.projectInfo(config.jira.projectKey);
      if info.Failure? {
        return Some(info.error);
      }
      err := None;
    }

    /** createJiraIssueWithRetry: three attempts, two seconds apart, at
        creating the issue built by the same parent guard as the service
        layer's; a failure comes only after all three attempts. */
    method CreateJiraIssueWithRetry(title: string, description: string, issueType: string,
                                    priority: string, epicLink: string)
      returns (r: Result<string>, ghost calls: nat, ghost sleeps: seq<int>)
      ensures r == Jira.Created(Tracker(), Jira.BuildIssue(config.jira.projectKey, title, description, issueType, epicLink))
      ensures r.Success? <==> exists j :: (0 <= j < Jira.MaxAttempts
                 && env.tracker.create(Jira.BuildIssue(config.jira.projectKey, title, description, issueType, epicLink), j).Success?)
      ensures r.Success? ==> 1 <= calls <= Jira.MaxAttempts
                             && r == Jira.CreateIssue(Tracker(), title, description, issueType, priority, epicLink, calls - 1)
      ensures r.Success? ==> forall j :: 0 <= j < calls - 1
                               ==> Jira.CreateIssue(Tracker(), title, description, issueType, priority, epicLink, j).Failure?
      ensures r.Failure? ==> calls == Jira.MaxAttempts
                             && r.error == Exhausted(Jira.MaxAttempts,
                                                     Some(Jira.CreateIssue(Tracker(), title, description, issueType,
                                                                           priority, epicLink, Jira.MaxAttempts - 1).error))
      ensures |sleeps| == calls - 1 && forall d :: d in sleeps ==> d == Jira.RetryDelayMillis
    {
      r, calls, sleeps := Jira.CreateIssueWithRetry(Tracker(), title, description, issueType, priority, epicLink);
    }

    /** createJiraTickets: the connection is tested first; then each epic is
        created and each of its stories, as in the service layer, with a
        pause after every created story and between epics. */
    method CreateJiraTickets(breakdown: LegacyBreakdown)
      returns (err: Option<Error>, ghost submitted: seq<JiraIssue>, ghost pauses: seq<int>)
      ensures !Jira.Connected(Tracker()) ==>
                err.Some? && err.value.ConnectionTestFailed? && submitted == [] && pauses == []
      ensures Jira.Connected(Tracker()) ==>
                && err == Jira.Submitted(Tracker(), LegacyBullet, breakdown.epics).0
                && submitted == Jira.Submitted(Tracker(), LegacyBullet, breakdown.epics).1
                && pauses == Pauses(Tracker(), breakdown.epics)
    {
      submitted, pauses := [], [];
      var connection := TestJiraConnection();
      if connection.Some? {
        return Some(ConnectionTestFailed(connection.value)), submitted, pauses;
      }
      err, submitted, pauses := CreatePacedTickets(Tracker(), breakdown.epics);
    }
  }
}
