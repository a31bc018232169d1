/** The tracker service of the service layer (internal/services/jira.go):
    the connection test, the retried issue creation with its parent guard,
    and the creation of one epic per breakdown epic followed by one task per
    story, linked to that epic.

    The tracker is an oracle. `projects` is the outcome of listing the
    projects the credentials can see, `projectInfo(key)` the outcome of
    reading one project, and `create(issue, k)` the key the tracker assigns
    to `issue` on attempt k + 1 of creating it, or the failure of that call. */
module JiraService {
  import opened Models
  import opened Text
  import Config
  import Retry

  datatype Tracker = Tracker(
    projects: Result<seq<ProjectInfo>>,
    projectInfo: string -> Result<ProjectInfo>,
    create: (JiraIssue, nat) -> Result<string>)

  datatype JiraService = JiraService(config: Config.JiraConfig, tracker: Tracker)

  /** Issue creation is tried three times, two seconds (2000 ms) apart. */
  const MaxAttempts := 3
  const RetryDelayMillis := 2000

  /** The bullet written before each acceptance criterion. The source file
      holds the bullet glyph mis-encoded: these are the bytes of its string
      literal, a space included. */
  const ServicesBullet := "\U{C3}\U{A2}\U{E2}\U{82}\U{AC}\U{C2}\U{A2} "

  /** Whether `key` is among the listed projects. */
  predicate Listed(projects: seq<ProjectInfo>, key: string) {
    exists i :: 0 <= i < |projects| && projects[i].key == key
  }

  /** The membership scan: every project is visited (each one is displayed)
      and the flag is raised when its key is the configured one. */
  method ScanProjects(projects: seq<ProjectInfo>, key: string) returns (projectFound: bool)
    ensures projectFound <==> Listed(projects, key)
  {
    projectFound := false;
    for i := 0 to |projects|
      invariant projectFound <==> exists j :: 0 <= j < i && projects[j].key == key
    {
      if projects[i].key == key {
        projectFound := true;
      }
    }
  }

  /** The projects can be listed, the configured project is among them and
      it can be read. */
  predicate Connected(s: JiraService) {
    && s.tracker.projects.Success?
    && Listed(s.tracker.projects.value, s.config.projectKey)
    && s.tracker.projectInfo(s.config.projectKey).Success?
  }

  /** TestConnection: fails when the projects cannot be listed, when the
      configured project is not among them, or when that project cannot be
      read; the project is read only once it has been found in the list. */
  method TestConnection(s: JiraService) returns (err: Option<Error>, ghost accessChecked: bool)
    ensures err == None <==> Connected(s)
    ensures s.tracker.projects.Failure? ==> err == Some(AuthenticationFailed(s.tracker.projects.error))
    ensures s.tracker.projects.Success? && !Listed(s.tracker.projects.value, s.config.projectKey) ==>
              err == Some(ProjectNotFound(s.config.projectKey))
    ensures accessChecked <==> s.tracker.projects.Success? && Listed(s.tracker.projects.value, s.config.projectKey)
    ensures accessChecked && s.tracker.projectInfo(s.config.projectKey).Failure? ==>
              err == Some(ProjectAccessFailed(s.tracker.projectInfo(s.config.projectKey).error))
  {
    accessChecked := false;
    if s.tracker.projects.Failure? {
      return Some(AuthenticationFailed(s.tracker.projects.error)), accessChecked;
    }
    var projects := s.tracker.projects.value;
    var projectFound := ScanProjects(projects, s.config.projectKey);
    if !projectFound {
      return Some(ProjectNotFound(s.config.projectKey)), accessChecked;
    }
    accessChecked := true;
    var info := s.tracker.projectInfo(s.config.projectKey);
    if info.Failure? {
      return Some(ProjectAccessFailed(info.error)), accessChecked;
    }
    err := None;
  }

  /** The issue CreateIssue sends: in the given project, with the given
      summary, description and type, and with the epic link as parent only
      when the link is non-empty and the issue is not itself an epic. The
      priority is not sent. */
  function BuildIssue(projectKey: string, title: string, description: string, issueType: string,
                      epicLink: string): (issue: JiraIssue)
    ensures issue.projectKey == projectKey && issue.summary == title
    ensures issue.description == description && issue.issueType == issueType
    ensures issue.parent.Some? <==> epicLink != "" && issueType != "Epic"
    ensures issue.parent.Some? ==> issue.parent.value == epicLink
  {
    JiraIssue(projectKey, title, description, issueType,
              if epicLink != "" && issueType != "Epic" then Some(epicLink) else None)
  }

  /** CreateIssue on attempt k + 1: the tracker's answer for the issue built
      from the arguments in the configured project. */
  function CreateIssue(s: JiraService, title: string, description: string, issueType: string,
                       priority: string, epicLink: string, attempt: nat): Result<string>
  {
    s.tracker.create(BuildIssue(s.config.projectKey, title, description, issueType, epicLink), attempt)
  }

  /** The successive attempts at creating one issue. */
  function IssueAttempts(s: JiraService, issue: JiraIssue): nat -> Result<string> {
    (k: nat) => s.tracker.create(issue, k)
  }

  /** What the retried creation of `issue` returns. */
  function Created(s: JiraService, issue: JiraIssue): Result<string> {
    Retry.Outcome(IssueAttempts(s, issue), MaxAttempts)
  }

  /** CreateIssueWithRetry: up to three attempts two seconds apart; the first
      key obtained is returned, otherwise the third attempt's error is
      wrapped. */
  method CreateIssueWithRetry(s: JiraService, title: string, description: string, issueType: string,
                              priority: string, epicLink: string)
    returns (r: Result<string>, ghost calls: nat, ghost sleeps: seq<int>)
    ensures r == Created(s, BuildIssue(s.config.projectKey, title, description, issueType, epicLink))
    ensures r.Success? <==> exists j :: 0 <= j < MaxAttempts
                                     && CreateIssue(s, title, description, issueType, priority, epicLink, j).Success?
    ensures calls == Retry.Calls(IssueAttempts(s, BuildIssue(s.config.projectKey, title, description, issueType, epicLink)),
                                 MaxAttempts)
    ensures r.Success? ==> 1 <= calls <= MaxAttempts
                           && r == CreateIssue(s, title, description, issueType, priority, epicLink, calls - 1)
    ensures r.Success? ==> forall j :: 0 <= j < calls - 1
                                       ==> CreateIssue(s, title, description, issueType, priority, epicLink, j).Failure?
    ensures r.Failure? ==> calls == MaxAttempts
                           && r.error == Exhausted(MaxAttempts, Some(CreateIssue(s, title, description, issueType,
                                                                                 priority, epicLink, MaxAttempts - 1).error))
    ensures |sleeps| == calls - 1 && forall d :: d in sleeps ==> d == RetryDelayMillis
  {
    var issue := BuildIssue(s.config.projectKey, title, description, issueType, epicLink);
    var op := IssueAttempts(s, issue);
    assert forall j: nat :: op(j) == CreateIssue(s, title, description, issueType, priority, epicLink, j);
    Retry.RetrySpec(op, MaxAttempts);
    r, calls, sleeps := Retry.Run(op, MaxAttempts, RetryDelayMillis);
  }

  /** CreateEpic: an issue of type "Epic", never with a parent. */
  method CreateEpic(s: JiraService, title: string, description: string, priority: string)
    returns (r: Result<string>)
    ensures r == Created(s, EpicIssue(s, title, description))
  {
    ghost var calls, sleeps;
    r, calls, sleeps := CreateIssueWithRetry(s, title, description, "Epic", priority, "");
  }

  /** CreateTask: an issue of type "Task" linked to `epicLink`. */
  method CreateTask(s: JiraService, title: string, description: string, priority: string, epicLink: string)
    returns (r: Result<string>)
    ensures r == Created(s, TaskIssue(s, title, description, epicLink))
  {
    ghost var calls, sleeps;
    r, calls, sleeps := CreateIssueWithRetry(s, title, description, "Task", priority, epicLink);
  }

  function EpicIssue(s: JiraService, title: string, description: string): JiraIssue {
    BuildIssue(s.config.projectKey, title, description, "Epic", "")
  }

  function TaskIssue(s: JiraService, title: string, description: string, epicLink: string): JiraIssue {
    BuildIssue(s.config.projectKey, title, description, "Task", epicLink)
  }

  /** An epic is created without a parent, and a task gets its epic as parent
      exactly when the epic's key is non-empty. */
  lemma ParentGuard(s: JiraService, title: string, description: string, epicLink: string)
    ensures EpicIssue(s, title, description).parent == None
    ensures TaskIssue(s, title, description, epicLink).parent == (if epicLink != "" then Some(epicLink) else None)
  {
  }

  /** One bulleted line per acceptance criterion. */
  function CriteriaLines(bullet: string, criteria: seq<string>): string {
    if criteria == [] then ""
    else CriteriaLines(bullet, criteria[..|criteria| - 1]) + bullet + criteria[|criteria| - 1] + "\n"
  }

  /** The task description: the story's description, the acceptance criteria
      heading, one bulleted line per criterion and, when the story has
      dependencies, a line listing them separated by commas. */
  function FullDescription(bullet: string, story: Story): string {
    story.description + "\n\n*Acceptance Criteria:*\n" + CriteriaLines(bullet, story.acceptanceCriteria)
    + (if |story.dependencies| > 0 then "\n*Dependencies:* " + Join(story.dependencies, ", ") else "")
  }

  /** The description builder of the story loop. */
  method DescribeStory(bullet: string, story: Story) returns (fullDescription: string)
    ensures fullDescription == FullDescription(bullet, story)
  {
    fullDescription := story.description + "\n\n*Acceptance Criteria:*\n";
    ghost var head := fullDescription;
    var criteria := story.acceptanceCriteria;
    for i := 0 to |criteria|
      invariant fullDescription == head + CriteriaLines(bullet, criteria[..i])
    {
      assert criteria[..i + 1][..i] == criteria[..i];
      fullDescription := fullDescription + bullet + criteria[i] + "\n";
    }
    assert criteria[..|criteria|] == criteria;
    if |story.dependencies| > 0 {
      fullDescription := fullDescription + "\n*Dependencies:* " + Join(story.dependencies, ", ");
    }
  }

  /** The bulleted criteria, one per line. */
  function Bulleted(bullet: string, criteria: seq<string>): seq<string> {
    seq(|criteria|, i requires 0 <= i < |criteria| => bullet + criteria[i])
  }

  lemma {:induction false} CriteriaLinesTerminated(bullet: string, criteria: seq<string>)
    ensures CriteriaLines(bullet, criteria) == Terminated(Bulleted(bullet, criteria))
  {
    if criteria != [] {
      var init := criteria[..|criteria| - 1];
      CriteriaLinesTerminated(bullet, init);
      assert Bulleted(bullet, criteria) == Bulleted(bullet, init) + [bullet + criteria[|criteria| - 1]];
      TerminatedAppend(Bulleted(bullet, init), [bullet + criteria[|criteria| - 1]]);
    }
  }

  /** The description keeps the story's own text in front, and when the
      criteria and the bullet hold no line break and there are no
      dependencies, the lines after the heading give back every criterion
      behind its bullet, in order. */
  lemma FullDescriptionReadBack(bullet: string, story: Story)
    requires '\n' !in bullet && forall c :: c in story.acceptanceCriteria ==> '\n' !in c
    requires story.dependencies == []
    ensures HasPrefix(FullDescription(bullet, story), story.description + "\n\n*Acceptance Criteria:*\n")
    ensures Lines(CriteriaLines(bullet, story.acceptanceCriteria))
            == Bulleted(bullet, story.acceptanceCriteria) + [""]
  {
    var criteria := story.acceptanceCriteria;
    CriteriaLinesTerminated(bullet, criteria);
    var bs := Bulleted(bullet, criteria);
    forall i | 0 <= i < |bs| ensures '\n' !in bs[i] {
      assert criteria[i] in criteria;
    }
    LinesOfTerminated(bs);
    var head := story.description + "\n\n*Acceptance Criteria:*\n";
    assert FullDescription(bullet, story) == head + CriteriaLines(bullet, criteria);
  }

  /** The tasks created for an epic's stories, linked to the epic's key. */
  function StoryIssues(s: JiraService, bullet: string, stories: seq<Story>, epicKey: string): seq<JiraIssue> {
    seq(|stories|, j requires 0 <= j < |stories| =>
      TaskIssue(s, stories[j].title, FullDescription(bullet, stories[j]), epicKey))
  }

  /** Reference definition of CreateTicketsFromBreakdown: the outcome and the
      issues submitted, in order. Each epic is created and then each of its
      stories; a story that cannot be created is skipped, an epic that cannot
      be created ends the run with its title. The trace holds each issue once
      per logical creation; the retries of the same issue are not repeated. */
  function Submitted(s: JiraService, bullet: string, epics: seq<Epic>): (Option<Error>, seq<JiraIssue>) {
    if epics == [] then (None, [])
    else
      var e := epics[0];
      var epicIssue := EpicIssue(s, e.title, e.description);
      match Created(s, epicIssue)
      case Failure(err) => (Some(EpicFailed(e.title, err)), [epicIssue])
      case Success(epicKey) =>
        var rest := Submitted(s, bullet, epics[1..]);
        (rest.0, [epicIssue] + StoryIssues(s, bullet, e.stories, epicKey) + rest.1)
  }

  /** Whether the epic issue of `e` can be created. */
  predicate EpicCreated(s: JiraService, e: Epic) {
    Created(s, EpicIssue(s, e.title, e.description)).Success?
  }

  /** CreateTicketsFromBreakdown: the nested epic and story loops. The
      issues submitted are recorded in a ghost log. */
  method CreateTicketsFromBreakdown(s: JiraService, breakdown: ProjectBreakdown)
    returns (err: Option<Error>, ghost submitted: seq<JiraIssue>)
    ensures err == Submitted(s, ServicesBullet, breakdown.epics).0
    ensures submitted == Submitted(s, ServicesBullet, breakdown.epics).1
  {
    err, submitted := CreateTickets(s, ServicesBullet, breakdown.epics);
  }

  /** The loops of CreateTicketsFromBreakdown for a given bullet. */
  method CreateTickets(s: JiraService, bullet: string, epics: seq<Epic>)
    returns (err: Option<Error>, ghost submitted: seq<JiraIssue>)
    ensures err == Submitted(s, bullet, epics).0 && submitted == Submitted(s, bullet, epics).1
  {
    submitted := [];
    var i := 0;
    SubmittedStart(s, bullet, epics);
    while i < |epics|
      invariant i <= |epics|
      invariant SubmittedFrom(s, bullet, epics, i, submitted)
    {
      var epic := epics[i];
      var epicKey := CreateEpic(s, epic.title, epic.description, epic.priority);
      if epicKey.Failure? {
        SubmittedStop(s, bullet, epics, i, submitted);
        return Some(EpicFailed(epic.title, epicKey.error)), submitted + [EpicIssue(s, epic.title, epic.description)];
      }
      SubmittedStep(s, bullet, epics, i, submitted, epicKey.value);
      submitted := CreateStories(s, bullet, epic.stories, epicKey.value,
                                 submitted + [EpicIssue(s, epic.title, epic.description)]);
      i := i + 1;
    }
    SubmittedEnd(s, bullet, epics, submitted);
    err := None;
  }

  /** The story loop of CreateTicketsFromBreakdown: a task per story, linked
      to the epic; a story that cannot be created is skipped. */
  method CreateStories(s: JiraService, bullet: string, stories: seq<Story>, epicKey: string, ghost before: seq<JiraIssue>)
    returns (ghost submitted: seq<JiraIssue>)
    ensures submitted == before + StoryIssues(s, bullet, stories, epicKey)
  {
    submitted := before;
    for j := 0 to |stories|
      invariant submitted == before + StoryIssues(s, bullet, stories, epicKey)[..j]
    {
      var story := stories[j];
      var fullDescription := DescribeStory(bullet, story);
      var storyKey := CreateTask(s, story.title, fullDescription, story.priority, epicKey);
      submitted := submitted + [TaskIssue(s, story.title, fullDescription, epicKey)];
      assert StoryIssues(s, bullet, stories, epicKey)[..j + 1]
          == StoryIssues(s, bullet, stories, epicKey)[..j] + [TaskIssue(s, story.title, fullDescription, epicKey)];
      if storyKey.Failure? {
        continue;
      }
    }
    assert StoryIssues(s, bullet, stories, epicKey)[..|stories|] == StoryIssues(s, bullet, stories, epicKey);
  }

  /** The loop invariant of the epic loop: the first i epics were created
      and `done` holds their issues; the rest of the run is the run on the
      remaining epics. */
  predicate SubmittedFrom(s: JiraService, bullet: string, epics: seq<Epic>, i: nat, done: seq<JiraIssue>)
    requires i <= |epics|
  {
    && Submitted(s, bullet, epics).0 == Submitted(s, bullet, epics[i..]).0
    && Submitted(s, bullet, epics).1 == done + Submitted(s, bullet, epics[i..]).1
  }

  lemma SubmittedStart(s: JiraService, bullet: string, epics: seq<Epic>)
    ensures SubmittedFrom(s, bullet, epics, 0, [])
  {
    assert epics[0..] == epics;
  }

  lemma SubmittedEnd(s: JiraService, bullet: string, epics: seq<Epic>, done: seq<JiraIssue>)
    requires SubmittedFrom(s, bullet, epics, |epics|, done)
    ensures Submitted(s, bullet, epics).0 == None && Submitted(s, bullet, epics).1 == done
  {
    assert epics[|epics|..] == [];
  }

  lemma SubmittedStep(s: JiraService, bullet: string, epics: seq<Epic>, i: nat, done: seq<JiraIssue>, epicKey: string)
    requires i < |epics| && SubmittedFrom(s, bullet, epics, i, done)
    requires Created(s, EpicIssue(s, epics[i].title, epics[i].description)) == Success(epicKey)
    ensures SubmittedFrom(s, bullet, epics, i + 1, done + [EpicIssue(s, epics[i].title, epics[i].description)]
                                                   + StoryIssues(s, bullet, epics[i].stories, epicKey))
  {
    assert epics[i..][0] == epics[i] && epics[i..][1..] == epics[i + 1..];
    var e := [EpicIssue(s, epics[i].title, epics[i].description)];
    var st := StoryIssues(s, bullet, epics[i].stories, epicKey);
    var rest := Submitted(s, bullet, epics[i + 1..]).1;
    assert done + (e + st + rest) == done + e + st + rest;
  }

  lemma SubmittedStop(s: JiraService, bullet: string, epics: seq<Epic>, i: nat, done: seq<JiraIssue>)
    requires i < |epics| && SubmittedFrom(s, bullet, epics, i, done)
    requires Created(s, EpicIssue(s, epics[i].title, epics[i].description)).Failure?
    ensures Submitted(s, bullet, epics).0
         == Some(EpicFailed(epics[i].title, Created(s, EpicIssue(s, epics[i].title, epics[i].description)).error))
    ensures Submitted(s, bullet, epics).1 == done + [EpicIssue(s, epics[i].title, epics[i].description)]
  {
    assert epics[i..][0] == epics[i];
  }

  /** The run succeeds exactly when every epic can be created. */
  lemma {:induction false} SubmittedSucceeds(s: JiraService, bullet: string, epics: seq<Epic>)
    ensures Submitted(s, bullet, epics).0 == None <==> forall i :: 0 <= i < |epics| ==> EpicCreated(s, epics[i])
  {
    if epics != [] {
      SubmittedSucceeds(s, bullet, epics[1..]);
      assert forall i :: 1 <= i < |epics| ==> epics[i] == epics[1..][i - 1];
    }
  }

  /** A failed run names the first epic that could not be created; the epics
      before it were created. */
  lemma {:induction false} SubmittedFailure(s: JiraService, bullet: string, epics: seq<Epic>) returns (i: nat)
    requires Submitted(s, bullet, epics).0.Some?
    ensures i < |epics| && !EpicCreated(s, epics[i])
    ensures forall j :: 0 <= j < i ==> EpicCreated(s, epics[j])
    ensures Submitted(s, bullet, epics).0
            == Some(EpicFailed(epics[i].title, Created(s, EpicIssue(s, epics[i].title, epics[i].description)).error))
  {
    if EpicCreated(s, epics[0]) {
      var k := SubmittedFailure(s, bullet, epics[1..]);
      i := k + 1;
      assert forall j :: 1 <= j < |epics| ==> epics[j] == epics[1..][j - 1];
    } else {
      i := 0;
    }
  }

  /** A successful run submits one issue per epic and one per story. */
  lemma {:induction false} SubmittedCount(s: JiraService, bullet: string, epics: seq<Epic>)
    requires Submitted(s, bullet, epics).0 == None
    ensures |Submitted(s, bullet, epics).1| == |epics| + StoryCount(epics)
  {
    if epics != [] {
      SubmittedCount(s, bullet, epics[1..]);
    }
  }

  /** Every submitted issue belongs to the configured project; epics carry
      no parent, and a parent is always a non-empty epic key on a task. */
  lemma {:induction false} SubmittedParents(s: JiraService, bullet: string, epics: seq<Epic>)
    ensures forall x :: x in Submitted(s, bullet, epics).1 ==>
      && x.projectKey == s.config.projectKey
      && (x.issueType == "Epic" ==> x.parent == None)
      && (x.parent.Some? ==> x.issueType == "Task" && x.parent.value != "")
  {
    if epics != [] {
      SubmittedParents(s, bullet, epics[1..]);
    }
  }
}
