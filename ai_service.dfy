/** The AI service of the service layer (internal/services/ai.go): one call to
    the AI provider per chunk, retried a configured number of times, and the
    merger that folds the epics of all chunks together.

    The provider is an oracle: `respond(req, k)` is the text of the first
    content block of its answer to `req` on attempt k + 1, or the failure of
    that call (transport error, HTTP status, undecodable envelope, empty
    content list). The JSON decoder is the oracle `parse`; `B` is the
    breakdown type it decodes into (main.go has its own). */
module AiService {
  import opened Models
  import opened Text
  import opened Keyed
  import opened Merging
  import Config
  import Retry

  datatype AIService<B> = AIService(
    config: Config.AnthropicConfig,
    respond: (AiRequest, nat) -> Result<string>,
    parse: string -> Result<B>)

  /** Strip surrounding white space, a leading "```json" and a trailing "```"
      marker, then white space again. */
  function StripFences(text: string): (r: string)
    ensures Trimmed(r) && |r| <= |text|
  {
    TrimSpace(TrimSuffix(TrimPrefix(TrimSpace(text), "```json"), "```"))
  }

  /** A reply wrapped in a json code fence gives back its body. */
  lemma StripFencesRoundTrip(body: string)
    requires Trimmed(body)
    ensures StripFences("```json\n" + body + "\n```") == body
  {
    var fenced := "```json\n" + body + "\n```";
    TrimSpaceOfTrimmed(fenced);
    assert HasPrefix(fenced, "```json");
    var afterPrefix := "\n" + body + "\n```";
    assert TrimPrefix(fenced, "```json") == afterPrefix;
    assert HasSuffix(afterPrefix, "```");
    assert TrimSuffix(afterPrefix, "```") == "\n" + body + "\n";
    TrimSpaceSurrounded("\n", body, "\n");
  }

  /** A reply without the markers is only trimmed. */
  lemma StripFencesPlain(text: string)
    requires !HasPrefix(TrimSpace(text), "```json") && !HasSuffix(TrimSpace(text), "```")
    ensures StripFences(text) == TrimSpace(text)
  {
    TrimSpaceOfTrimmed(TrimSpace(text));
  }

  /** Stripping is idempotent on a reply that is not fenced once stripped. */
  lemma StripFencesTwice(text: string)
    requires !HasPrefix(StripFences(text), "```json") && !HasSuffix(StripFences(text), "```")
    ensures StripFences(StripFences(text)) == StripFences(text)
  {
    TrimSpaceOfTrimmed(StripFences(text));
  }

  /** ProcessWithAI: one call to the provider. The parser is given the
      fence-stripped reply; a failed call is passed through, and a parse
      failure carries the stripped reply. */
  function ProcessWithAI<B>(s: AIService<B>, req: AiRequest, attempt: nat): (r: Result<B>)
    ensures s.respond(req, attempt).Failure? ==> r == Failure(s.respond(req, attempt).error)
    ensures s.respond(req, attempt).Success? ==>
      var text := StripFences(s.respond(req, attempt).value);
      && (r.Success? <==> s.parse(text).Success?)
      && (r.Success? ==> r == s.parse(text))
      && (r.Failure? ==> r.error == ParseFailed(s.parse(text).error, text))
  {
    match s.respond(req, attempt)
    case Failure(e) => Failure(e)
    case Success(reply) =>
      var text := StripFences(reply);
      match s.parse(text)
      case Success(b) => Success(b)
      case Failure(e) => Failure(ParseFailed(e, text))
  }

  /** The successive attempts at one request. */
  function Attempts<B>(s: AIService<B>, req: AiRequest): nat -> Result<B> {
    (k: nat) => ProcessWithAI(s, req, k)
  }

  /** ProcessWithRetry: at most RetryCount attempts, RetryDelaySeconds apart;
      the first success is returned, otherwise the last error is wrapped after
      all RetryCount calls. A RetryCount of zero or less makes no call and
      fails with no cause. */
  method ProcessWithRetry<B>(s: AIService<B>, req: AiRequest)
    returns (r: Result<B>, ghost calls: nat, ghost sleeps: seq<int>)
    ensures r == Retry.Outcome(Attempts(s, req), s.config.retryCount)
    ensures calls == Retry.Calls(Attempts(s, req), s.config.retryCount)
    ensures r.Success? <==> exists j :: 0 <= j < s.config.retryCount && ProcessWithAI(s, req, j).Success?
    ensures r.Success? ==> calls >= 1 && r == ProcessWithAI(s, req, calls - 1)
    ensures r.Success? ==> forall j :: 0 <= j < calls - 1 ==> ProcessWithAI(s, req, j).Failure?
    ensures r.Failure? ==> r.error == Exhausted(s.config.retryCount, Retry.LastError(Attempts(s, req), s.config.retryCount))
    ensures r.Failure? ==> calls == (if s.config.retryCount > 0 then s.config.retryCount else 0)
    ensures s.config.retryCount <= 0 ==> calls == 0 && r == Failure(Exhausted(s.config.retryCount, None))
    ensures calls <= (if s.config.retryCount > 0 then s.config.retryCount else 0)
    ensures |sleeps| == (if calls == 0 then 0 else calls - 1)
    ensures forall d :: d in sleeps ==> d == s.config.retryDelaySeconds
  {
    var op := Attempts(s, req);
    assert forall j: nat :: op(j) == ProcessWithAI(s, req, j);
    r, calls, sleeps := Retry.Run(op, s.config.retryCount, s.config.retryDelaySeconds);
  }

  /** What the retried call returns for chunk i + 1 of `chunks`. */
  function Answer<B>(s: AIService<B>, chunks: seq<string>, i: nat): Result<B>
    requires i < |chunks|
  {
    Retry.Outcome(Attempts(s, AiRequest(chunks[i], i + 1, |chunks|)), s.config.retryCount)
  }

  /** Every chunk from the first to the `n`-th was answered. */
  predicate Answered<B>(s: AIService<B>, chunks: seq<string>, n: nat)
    requires n <= |chunks|
  {
    forall i :: 0 <= i < n ==> Answer(s, chunks, i).Success?
  }

  /** The answers to the first `n` chunks, in chunk order. */
  function Answers<B>(s: AIService<B>, chunks: seq<string>, n: nat): (bs: seq<B>)
    requires n <= |chunks| && Answered(s, chunks, n)
    ensures |bs| == n
  {
    if n == 0 then [] else Answers(s, chunks, n - 1) + [Answer(s, chunks, n - 1).value]
  }

  /** The i-th answer is what the retried call returned for chunk i + 1. */
  lemma {:induction false} AnswersSpec<B>(s: AIService<B>, chunks: seq<string>, n: nat, i: nat)
    requires n <= |chunks| && Answered(s, chunks, n) && i < n
    ensures Success(Answers(s, chunks, n)[i]) == Answer(s, chunks, i)
  {
    if i < n - 1 {
      AnswersSpec(s, chunks, n - 1, i);
    }
  }

  /** Chunk i + 1 of `chunks`, processed with retries. */
  method ProcessChunk<B>(s: AIService<B>, chunks: seq<string>, i: nat) returns (r: Result<B>)
    requires i < |chunks|
    ensures r == Answer(s, chunks, i)
  {
    ghost var calls, sleeps;
    r, calls, sleeps := ProcessWithRetry(s, AiRequest(chunks[i], i + 1, |chunks|));
  }

  /** One more answered chunk extends the answers by its answer. */
  lemma AnswersSnoc<B>(s: AIService<B>, chunks: seq<string>, i: nat, b: B)
    requires i < |chunks| && Answered(s, chunks, i) && Answer(s, chunks, i) == Success(b)
    ensures Answered(s, chunks, i + 1)
    ensures Answers(s, chunks, i + 1) == Answers(s, chunks, i) + [b]
  {
  }

  /** The entry holding `key`, or |entries| when there is none (a map
      lookup). */
  method FindEpic(entries: seq<Epic>, key: string) returns (j: nat)
    ensures j <= |entries|
    ensures j < |entries| ==> EpicKey(entries[j]) == key
    ensures j == |entries| ==> forall m :: 0 <= m < |entries| ==> EpicKey(entries[m]) != key
  {
    j := 0;
    while j < |entries| && Normalize(entries[j].title) != key
      invariant j <= |entries|
      invariant forall m :: 0 <= m < j ==> EpicKey(entries[m]) != key
    {
      j := j + 1;
    }
  }

  method FindStory(entries: seq<Story>, key: string) returns (j: nat)
    ensures j <= |entries|
    ensures j < |entries| ==> StoryKey(entries[j]) == key
    ensures j == |entries| ==> forall m :: 0 <= m < |entries| ==> StoryKey(entries[m]) != key
  {
    j := 0;
    while j < |entries| && Normalize(entries[j].title) != key
      invariant j <= |entries|
      invariant forall m :: 0 <= m < j ==> StoryKey(entries[m]) != key
    {
      j := j + 1;
    }
  }

  /** MergeEpics: one epic per normalized title, each with its stories
      deduplicated. The first epic with a title is copied; each later one
      appends its stories, replaces the description only by a strictly
      longer one and raises the priority (High always, Medium over Low). */
  method MergeEpics(epics: seq<Epic>) returns (result: seq<Epic>)
    ensures result == MergeSpec(epics)
  {
    var entries: seq<Epic> := [];
    var i := 0;
    while i < |epics|
      invariant i <= |epics|
      invariant entries == Merged(epics[..i])
    {
      var epic := epics[i];
      var key := Normalize(epic.title);
      var j := FindEpic(entries, key);
      if j < |entries| {
        var existing := entries[j];
        var stories := existing.stories + epic.stories;
        var description := existing.description;
        if |epic.description| > |existing.description| {
          description := epic.description;
        }
        var priority := existing.priority;
        if epic.priority == "High" || (epic.priority == "Medium" && existing.priority == "Low") {
          priority := epic.priority;
        }
        MergedSnocFound(epics[..i], epic, j);
        entries := entries[j := existing.(stories := stories, description := description, priority := priority)];
      } else {
        MergedSnocNew(epics[..i], epic);
        entries := entries + [epic];
      }
      assert epics[..i + 1] == epics[..i] + [epic];
      i := i + 1;
    }
    assert epics[..i] == epics;
    result := [];
    var k := 0;
    while k < |entries|
      invariant k <= |entries|
      invariant |result| == k
      invariant forall m :: 0 <= m < k ==> result[m] == entries[m].(stories := Dedup(entries[m].stories))
    {
      var deduplicated := DeduplicateStories(entries[k].stories);
      result := result + [entries[k].(stories := deduplicated)];
      k := k + 1;
    }
  }

  /** deduplicateStories: one story per normalized title; a later duplicate
      replaces the kept story only when it has a strictly longer description
      or strictly more acceptance criteria. */
  method DeduplicateStories(stories: seq<Story>) returns (result: seq<Story>)
    ensures result == Dedup(stories)
  {
    result := [];
    var i := 0;
    while i < |stories|
      invariant i <= |stories|
      invariant result == Dedup(stories[..i])
    {
      var story := stories[i];
      var key := Normalize(story.title);
      var j := FindStory(result, key);
      if j < |result| {
        DedupSnocFound(stories[..i], story, j);
        if |story.description| > |result[j].description|
          || |story.acceptanceCriteria| > |result[j].acceptanceCriteria|
        {
          result := result[j := story];
        }
      } else {
        DedupSnocNew(stories[..i], story);
        result := result + [story];
      }
      assert stories[..i + 1] == stories[..i] + [story];
      i := i + 1;
    }
    assert stories[..i] == stories;
  }
}
