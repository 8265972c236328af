/** The reporting step of a build: once the build is completed, comment on
    its first violations, set the commit status, and track the completed
    build for subscribed repositories. The outside collaborators are
    modelled by the ordered record of the calls made on them. */
module BuildReports {

  datatype Option<T> = None | Some(value: T)

  /** Identities only: the model never looks inside these. */
  datatype User = User(id: int)
  datatype PullRequest = PullRequest(number: int)

  datatype Subscription = Subscription(user: User)
  datatype Repo = Repo(id: int, subscription: Option<Subscription>)

  /** What the report reads of a build. `violations` is already ordered
      across files; `violationCount` is the build's own total. */
  datatype Build<V> = Build(
    completed: bool,
    violations: seq<V>,
    violationCount: int,
    repo: Repo,
    repoName: string,
    commitSha: string)

  /** The address of a commit status. */
  datatype CommitStatus = CommitStatus(repoName: string, sha: string, token: string)

  /** One call on a collaborator: Commenter, CommitStatus or Analytics. */
  datatype SinkCall<V> =
    | CommentOnViolations(pullRequest: PullRequest, violations: seq<V>)
    | SetSuccess(status: CommitStatus, violationCount: int)
    | TrackBuildCompleted(user: User, repo: Repo)

  /** The collaborators, as the calls made on them so far, oldest first. */
  class Sinks<V> {
    var calls: seq<SinkCall<V>>

    constructor ()
      ensures calls == []
    {
      calls := [];
    }

    /** Commenter.new(pull_request).comment_on_violations(violations) */
    method CommentOnViolations(pullRequest: PullRequest, violations: seq<V>)
      modifies this
      ensures calls == old(calls) + [SinkCall.CommentOnViolations(pullRequest, violations)]
    {
      calls := calls + [SinkCall.CommentOnViolations(pullRequest, violations)];
    }

    /** CommitStatus.new(...).set_success(violation_count) */
    method SetSuccess(status: CommitStatus, violationCount: int)
      modifies this
      ensures calls == old(calls) + [SinkCall.SetSuccess(status, violationCount)]
    {
      calls := calls + [SinkCall.SetSuccess(status, violationCount)];
    }

    /** Analytics.new(user).track_build_completed(repo) */
    method TrackBuildCompleted(user: User, repo: Repo)
      modifies this
      ensures calls == old(calls) + [SinkCall.TrackBuildCompleted(user, repo)]
    {
      calls := calls + [SinkCall.TrackBuildCompleted(user, repo)];
    }
  }

  /** BuildReport#priority_violations: Array#take, the first `maxComments`
      violations in their order, or all of them when there are fewer. */
  function PriorityViolations<V>(violations: seq<V>, maxComments: nat): (r: seq<V>)
    ensures |r| == if |violations| < maxComments then |violations| else maxComments
    ensures r == violations[..|r|]
  {
    if |violations| <= maxComments then violations else violations[..maxComments]
  }

  /** BuildReport#commit_status: the status of the build's commit in the
      build's repository, set with the report's token. */
  function CommitStatusFor<V>(build: Build<V>, token: string): (s: CommitStatus)
    ensures s.repoName == build.repoName && s.sha == build.commitSha && s.token == token
  {
    CommitStatus(build.repoName, build.commitSha, token)
  }

  /** The calls of BuildReport#track_subscribed_build_completed. */
  function AnalyticsCalls<V>(build: Build<V>): seq<SinkCall<V>>
  {
    match build.repo.subscription
    case None => []
    case Some(subscription) => [TrackBuildCompleted(subscription.user, build.repo)]
  }

  /** The calls of BuildReport#run, in order. */
  function ReportCalls<V>(build: Build<V>, pullRequest: PullRequest, token: string, maxComments: nat): seq<SinkCall<V>>
  {
    if build.completed then
      [CommentOnViolations(pullRequest, PriorityViolations(build.violations, maxComments)),
       SetSuccess(CommitStatusFor(build, token), build.violationCount)]
      + AnalyticsCalls(build)
    else
      []
  }

  method TrackSubscribedBuildCompleted<V>(build: Build<V>, sinks: Sinks<V>)
    modifies sinks
    ensures sinks.calls == old(sinks.calls) + AnalyticsCalls(build)
  {
    if build.repo.subscription.Some? {
      var user := build.repo.subscription.value.user;
      sinks.TrackBuildCompleted(user, build.repo);
    }
  }

  /** BuildReport#run. `maxComments` is the configured MAX_COMMENTS. */
  method Run<V>(maxComments: nat, pullRequest: PullRequest, build: Build<V>, token: string, sinks: Sinks<V>)
    modifies sinks
    ensures sinks.calls == old(sinks.calls) + ReportCalls(build, pullRequest, token, maxComments)
  {
    if build.completed {
      sinks.CommentOnViolations(pullRequest, PriorityViolations(build.violations, maxComments));
      sinks.SetSuccess(CommitStatusFor(build, token), build.violationCount);
      TrackSubscribedBuildCompleted(build, sinks);
    }
  }

  /** A build that is not completed causes no call at all. */
  lemma NoCallsUnlessCompleted<V>(build: Build<V>, pullRequest: PullRequest, token: string, maxComments: nat)
    ensures ReportCalls(build, pullRequest, token, maxComments) == [] <==> !build.completed
  {
  }

  /** A completed build causes exactly one comment call, then exactly one
      status call, then nothing but analytics calls. */
  lemma CallOrder<V>(build: Build<V>, pullRequest: PullRequest, token: string, maxComments: nat)
    requires build.completed
    ensures var calls := ReportCalls(build, pullRequest, token, maxComments);
            && |calls| >= 2
            && calls[0].CommentOnViolations?
            && calls[1].SetSuccess?
            && forall i :: 2 <= i < |calls| ==> calls[i].TrackBuildCompleted?
  {
  }

  /** Every comment call is for the report's pull request and carries at
      most `maxComments` violations, a prefix of the build's violations in
      their order. */
  lemma CommentsAreBoundedPrefixes<V>(build: Build<V>, pullRequest: PullRequest, token: string, maxComments: nat)
    ensures forall c :: c in ReportCalls(build, pullRequest, token, maxComments) && c.CommentOnViolations? ==>
              && c.pullRequest == pullRequest
              && |c.violations| <= maxComments
              && c.violations == build.violations[..|c.violations|]
              && (|build.violations| <= maxComments ==> c.violations == build.violations)
  {
  }

  /** Every status call reports the build's own violation count, not the
      number of violations commented on, on the build's repository and
      commit with the report's token. */
  lemma StatusCarriesFullCount<V>(build: Build<V>, pullRequest: PullRequest, token: string, maxComments: nat)
    ensures forall c :: c in ReportCalls(build, pullRequest, token, maxComments) && c.SetSuccess? ==>
              && c.violationCount == build.violationCount
              && c.status == CommitStatus(build.repoName, build.commitSha, token)
  {
  }

  /** Analytics is called exactly when the build is completed and its
      repository has a subscription, and then for the subscription's user
      and the build's repository. */
  lemma AnalyticsOnlyWhenSubscribed<V>(build: Build<V>, pullRequest: PullRequest, token: string, maxComments: nat)
    ensures var calls := ReportCalls(build, pullRequest, token, maxComments);
            && ((exists c :: c in calls && c.TrackBuildCompleted?)
                <==> build.completed && build.repo.subscription.Some?)
            && forall c :: c in calls && c.TrackBuildCompleted? ==>
                 && build.repo.subscription.Some?
                 && c.user == build.repo.subscription.value.user
                 && c.repo == build.repo
  {
    var calls := ReportCalls(build, pullRequest, token, maxComments);
    if build.completed && build.repo.subscription.Some? {
      assert calls[2].TrackBuildCompleted?;
    }
  }
}
