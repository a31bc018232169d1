/** The values that flow through the pipeline: the breakdown tree produced by
    the AI provider (internal/models/project.go), the issue sent to the
    tracker (internal/models/jira.go), and the errors the pipeline reports. */
module Models {

  datatype Option<T> = None | Some(value: T)

  /** A Go `(value, error)` pair: exactly one of the two is meaningful. */
  datatype Result<T> = Success(value: T) | Failure(error: Error)

  /** The five configuration fields that must be non-empty, in the order in
      which they are checked. */
  datatype RequiredField = APIKey | BaseURL | Username | APIToken | ProjectKey

  /** The errors the core reports. Each wrapping constructor corresponds to
      one `fmt.Errorf("...: %w", err)` in the source; `Remote` stands for any
      failure reported by an external collaborator (transport error, HTTP
      status with its body, undecodable response). */
  datatype Error =
    | Remote(message: string)
    | ReadFailed(cause: Error)
    | EmptyResponse
    | ParseFailed(cause: Error, response: string)
    | Exhausted(attempts: int, last: Option<Error>)
    | ChunkFailed(chunk: int, cause: Error)
    | EpicFailed(title: string, cause: Error)
    | AuthenticationFailed(cause: Error)
    | ProjectNotFound(key: string)
    | ProjectAccessFailed(cause: Error)
    | ConnectionTestFailed(cause: Error)
    | Required(field: RequiredField)
    | ValidationFailed(cause: Error)

  datatype Story = Story(
    title: string,
    description: string,
    storyPoints: int,
    priority: string,
    acceptanceCriteria: seq<string>,
    dependencies: seq<string>)

  /** `chunk` is the informational index of the chunk the epic came from
      (0 when untagged). */
  datatype Epic = Epic(
    title: string,
    description: string,
    priority: string,
    chunk: int,
    stories: seq<Story>)

  /** models.ProjectBreakdown of the service layer. */
  datatype ProjectBreakdown = ProjectBreakdown(
    projectName: string,
    overview: string,
    epics: seq<Epic>,
    totalEpics: int,
    totalStories: int,
    totalStoryPoints: int,
    processedChunks: int)

  /** What the AI provider is asked about: one chunk, its 1-based index and
      the number of chunks. */
  datatype AiRequest = AiRequest(content: string, chunkIndex: int, totalChunks: int)

  /** The issue body sent to the tracker; `parent` is the optional epic link. */
  datatype JiraIssue = JiraIssue(
    projectKey: string,
    summary: string,
    description: string,
    issueType: string,
    parent: Option<string>)

  datatype ProjectInfo = ProjectInfo(key: string, name: string)

  /** Number of stories across `epics`. */
  function StoryCount(epics: seq<Epic>): nat {
    if epics == [] then 0 else |epics[0].stories| + StoryCount(epics[1..])
  }

  function PointsOf(stories: seq<Story>): int {
    if stories == [] then 0 else stories[0].storyPoints + PointsOf(stories[1..])
  }

  /** Sum of the story points of all stories across `epics`. */
  function StoryPoints(epics: seq<Epic>): int {
    if epics == [] then 0 else PointsOf(epics[0].stories) + StoryPoints(epics[1..])
  }

  lemma {:induction false} StoryCountAppend(a: seq<Epic>, b: seq<Epic>)
    ensures StoryCount(a + b) == StoryCount(a) + StoryCount(b)
  {
    if a != [] {
      assert (a + b)[1..] == a[1..] + b;
      StoryCountAppend(a[1..], b);
    } else {
      assert a + b == b;
    }
  }

  lemma {:induction false} StoryPointsAppend(a: seq<Epic>, b: seq<Epic>)
    ensures StoryPoints(a + b) == StoryPoints(a) + StoryPoints(b)
  {
    if a != [] {
      assert (a + b)[1..] == a[1..] + b;
      StoryPointsAppend(a[1..], b);
    } else {
      assert a + b == b;
    }
  }

  lemma {:induction false} PointsOfAppend(a: seq<Story>, b: seq<Story>)
    ensures PointsOf(a + b) == PointsOf(a) + PointsOf(b)
  {
    if a != [] {
      assert (a + b)[1..] == a[1..] + b;
      PointsOfAppend(a[1..], b);
    } else {
      assert a + b == b;
    }
  }
}
