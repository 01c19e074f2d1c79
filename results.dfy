/**
 * The results page: a refresh of the viewed poll's tallies, a check of the
 * poll list for a different active poll ("new poll available"), the render
 * guards, and the vote counts' maximum that scales the bars.
 */
module Results {
  import opened Polls

  const NoPollIdMessage := "No poll ID provided"
  const ResultsFailedDefault := "Failed to fetch results"
  const NoResultsMessage := "Unable to load results"

  /** One option's tally as the server computes it. */
  datatype Tally = Tally(option: string, votes: int, percentage: real)

  /** The body of a successful `GET /polls/:id/results`. */
  datatype PollResults = PollResults(question: string, totalVotes: int, status: Status, results: seq<Tally>)

  /** The reply to the results request. */
  datatype ResultsReply = ResultsOk(data: PollResults) | ResultsFailed(message: string) | ResultsThrown(message: string)

  /** Which of the page's render branches is shown; `Tallies` carries what the table and the banner show. */
  datatype ResultView = Spinner | ErrorView(message: string) | Tallies(data: PollResults, closed: bool, banner: bool)

  /** The query parameter names a poll: present and not empty (both `null` and `''` are falsy). */
  predicate HasPollId(pollId: Option<string>)
  {
    pollId.Some? && pollId.value != ""
  }

  /** The error text a failed results request leaves. */
  function ResultsError(reply: ResultsReply): (r: string)
    requires !reply.ResultsOk?
    ensures r != ""
    ensures reply.ResultsFailed? ==> r == OrElse(reply.message, ResultsFailedDefault)
    ensures reply.ResultsThrown? ==> r == NetworkError(reply.message)
  {
    match reply
    case ResultsFailed(m) => OrElse(m, ResultsFailedDefault)
    case ResultsThrown(m) => NetworkError(m)
  }

  /**
   * The banner flag after `checkForNewPoll`: decided anew by a successful,
   * non-empty list (set exactly when its first active entry is not the viewed
   * poll), and kept as it was by any other reply.
   */
  function NewPollFlag(viewed: Option<string>, reply: ListReply, current: bool): (r: bool)
    ensures !(reply.ListOk? && |reply.polls| > 0) ==> r == current
    ensures reply.ListOk? && |reply.polls| > 0 ==>
      (r <==> exists k :: IsFirst(reply.polls, Active, k) && Some(reply.polls[k].id) != viewed)
  {
    if reply.ListOk? && |reply.polls| > 0 then
      match Find(reply.polls, Active)
      case Some(p) => Some(p.id) != viewed
      case None => false
    else current
  }

  /** While `p1` is viewed, a list whose first active poll is `p3` raises the banner. */
  lemma ScenarioNewPoll(current: bool)
    ensures NewPollFlag(Some("p1"), ListOk([PollSummary("p1", "Q1", Closed, 5), PollSummary("p3", "Q3", Active, 0)]), current)
  {
  }

  /** While the viewed poll is itself the first active one, the banner is lowered. */
  lemma ScenarioSamePoll(rest: seq<PollSummary>, current: bool)
    ensures !NewPollFlag(Some("p1"), ListOk([PollSummary("p1", "Q1", Active, 2)] + rest), current)
  {
  }

  /**
   * The page's render guards: the spinner while loading, then the error view
   * whenever there is an error text or no results (showing the error text, or a
   * generic one), and the tallies otherwise.
   */
  function PageView(loading: bool, error: string, results: Option<PollResults>, pollClosed: bool, banner: bool): (v: ResultView)
    ensures v.ErrorView? <==> !loading && (error != "" || results.None?)
    ensures v.ErrorView? ==> v.message != "" && (error != "" ==> v.message == error)
    ensures v.Tallies? <==> !loading && error == "" && results.Some?
    ensures v.Tallies? ==> v == Tallies(results.value, pollClosed, banner)
  {
    if loading then Spinner
    else if error != "" || results.None? then ErrorView(if error != "" then error else NoResultsMessage)
    else Tallies(results.value, pollClosed, banner)
  }

  /** A failed refresh shows the error view with its text, even though earlier tallies are kept. */
  lemma FailureShowsError(reply: ResultsReply, kept: Option<PollResults>, pollClosed: bool, banner: bool)
    requires !reply.ResultsOk?
    ensures PageView(false, ResultsError(reply), kept, pollClosed, banner) == ErrorView(ResultsError(reply))
  {
  }

  /** The votes column: one count per tally, in order. */
  function Values(tallies: seq<Tally>): (r: seq<int>)
    ensures |r| == |tallies|
    ensures forall i :: 0 <= i < |r| ==> r[i] == tallies[i].votes
  {
    seq(|tallies|, i requires 0 <= i < |tallies| => tallies[i].votes)
  }

  /** `Math.max(...values, 1)`: the largest count, and never below one. */
  function MaxVotes(values: seq<int>): (m: int)
    ensures m >= 1
    ensures forall i :: 0 <= i < |values| ==> values[i] <= m
    ensures m == 1 || m in values
    decreases |values|
  {
    if values == [] then 1
    else
      var rest := MaxVotes(values[1..]);
      if values[0] > rest then values[0] else rest
  }

  /** Tallies of 3 and 2 votes give a maximum of 3. */
  lemma ScenarioMaxVotes()
    ensures MaxVotes(Values([Tally("A", 3, 60.0), Tally("B", 2, 40.0)])) == 3
  {
  }

  /** The results page's state; `pollId` is the query parameter it was opened with. */
  class ResultPage {
    const pollId: Option<string>
    var results: Option<PollResults>
    var loading: bool
    var error: string
    var pollClosed: bool
    var newPollAvailable: bool

    constructor (pollId: Option<string>)
      ensures this.pollId == pollId && results == None && loading && error == "" && !pollClosed && !newPollAvailable
    {
      this.pollId := pollId;
      results, loading, error, pollClosed, newPollAvailable := None, true, "", false, false;
    }

    /**
     * `fetchResults`: without a poll id, an error and no request; otherwise the
     * reply replaces the tallies and the closed flag and clears the error, or
     * sets the error and keeps the tallies. Returns whether a request was made.
     */
    method FetchResults(reply: ResultsReply) returns (requested: bool)
      modifies this`results, this`loading, this`error, this`pollClosed
      ensures requested == HasPollId(pollId)
      ensures !loading
      ensures !requested ==> error == NoPollIdMessage && results == old(results) && pollClosed == old(pollClosed)
      ensures requested && reply.ResultsOk? ==>
        results == Some(reply.data) && pollClosed == (reply.data.status == Closed) && error == ""
      ensures requested && !reply.ResultsOk? ==>
        results == old(results) && pollClosed == old(pollClosed) && error == ResultsError(reply)
    {
      if !HasPollId(pollId) {
        error := NoPollIdMessage;
        loading := false;
        return false;
      }
      requested := true;
      if reply.ResultsOk? {
        results := Some(reply.data);
        pollClosed := reply.data.status == Closed;
        error := "";
      } else {
        error := ResultsError(reply);
      }
      loading := false;
    }

    /** `checkForNewPoll`: the banner flag after one check of the poll list. */
    method CheckForNewPoll(reply: ListReply)
      modifies this`newPollAvailable
      ensures newPollAvailable == NewPollFlag(pollId, reply, old(newPollAvailable))
    {
      if reply.ListOk? && |reply.polls| > 0 {
        var active := Find(reply.polls, Active);
        if active.Some? && Some(active.value.id) != pollId {
          newPollAvailable := true;
        } else {
          newPollAvailable := false;
        }
      }
    }
  }
}
