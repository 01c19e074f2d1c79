/**
 * The voting page: one refresh of the poll list (and of the first active
 * poll's detail) decides between a poll to vote on, a closed poll with a link
 * to its results, and nothing live; a voting card then lets the voter select
 * one option and submit it.
 */
module Vote {
  import opened Polls

  const VoteFailedDefault := "Failed to submit vote"

  /** A poll as `GET /polls/:id` returns it; a missing `options` array is the empty list. */
  datatype PollDetail = PollDetail(id: string, question: string, options: seq<string>)

  /** The reply to the detail request; `success` without a `poll` takes the `DetailFail` path. */
  datatype DetailReply = DetailOk(poll: PollDetail) | DetailFail | DetailThrown(message: string)

  /** The reply to `POST /polls/:id/vote`. */
  datatype VoteReply = VoteOk | VoteFailed(message: string) | VoteThrown(message: string)

  /** What one refresh concludes. */
  datatype Tick = Live(poll: PollDetail) | Ended(closedId: string) | Idle

  /** Which of the page's render branches is shown. */
  datatype VoteView = Spinner | Waiting | Voting(poll: PollDetail) | ClosedLink(closedId: string) | Unavailable

  /** The id whose detail a refresh requests: that of the first active entry of a successful, non-empty list. */
  function DetailRequest(list: ListReply): (r: Option<string>)
    ensures r.Some? <==> list.ListOk? && exists k :: IsFirst(list.polls, Active, k)
    ensures r.Some? ==> exists k :: IsFirst(list.polls, Active, k) && r.value == list.polls[k].id
  {
    if list.ListOk? && |list.polls| > 0 then
      match Find(list.polls, Active)
      case Some(p) => Some(p.id)
      case None => None
    else None
  }

  /**
   * The conclusion of one refresh. An active entry takes precedence over a
   * closed one; the detail reply counts only when a detail was requested.
   */
  function TickOf(list: ListReply, detail: DetailReply): (t: Tick)
    ensures t.Live? <==> DetailRequest(list).Some? && detail.DetailOk?
    ensures t.Live? ==> t.poll == detail.poll
    ensures t.Ended? <==>
      list.ListOk? && (forall j :: 0 <= j < |list.polls| ==> list.polls[j].status != Active) &&
      exists k :: IsFirst(list.polls, Closed, k)
    ensures t.Ended? ==> exists k :: IsFirst(list.polls, Closed, k) && t.closedId == list.polls[k].id
  {
    match DetailRequest(list)
    case Some(_) => if detail.DetailOk? then Live(detail.poll) else Idle
    case None =>
      if list.ListOk? then
        match Find(list.polls, Closed)
        case Some(p) => Ended(p.id)
        case None => Idle
      else Idle
  }

  /** Without an active entry no detail is requested, and the detail reply cannot matter. */
  lemma DetailIgnoredWithoutActive(list: ListReply, d1: DetailReply, d2: DetailReply)
    requires DetailRequest(list).None?
    ensures TickOf(list, d1) == TickOf(list, d2)
  {
  }

  /** Any active entry rules out the closed-poll outcome, wherever the closed entries stand. */
  lemma ActiveTakesPrecedence(list: ListReply, detail: DetailReply, k: nat)
    requires list.ListOk? && k < |list.polls| && list.polls[k].status == Active
    ensures !TickOf(list, detail).Ended?
    ensures DetailRequest(list).Some?
  {
  }

  /**
   * The page's render guards, in their order: the spinner while loading, the
   * waiting message without poll and without closed flag, the card for a poll
   * with options, the results link for a closed flag with a (truthy) id, and
   * the fallback message otherwise.
   */
  function PageView(loading: bool, poll: Option<PollDetail>, pollClosed: bool, closedPollId: Option<string>): (v: VoteView)
    ensures v.Voting? <==> !loading && poll.Some? && |poll.value.options| > 0
    ensures v.Voting? ==> v.poll == poll.value
    ensures v.ClosedLink? <==>
      !loading && pollClosed && closedPollId.Some? && closedPollId.value != "" &&
      (poll.None? || |poll.value.options| == 0)
    ensures v.ClosedLink? ==> v.closedId == closedPollId.value
    ensures v.Waiting? <==> !loading && poll.None? && !pollClosed
    ensures v.Spinner? <==> loading
  {
    if loading then Spinner
    else if poll.None? && !pollClosed then Waiting
    else if poll.Some? && |poll.value.options| > 0 then Voting(poll.value)
    else if pollClosed && closedPollId.Some? && closedPollId.value != "" then ClosedLink(closedPollId.value)
    else Unavailable
  }

  /**
   * After a refresh the view depends on its conclusion alone: a live poll with
   * options is shown for voting, a closed poll with a non-empty id gets its
   * results link, and nothing live gives the waiting message.
   */
  lemma ViewAfterTick(t: Tick, keptId: Option<string>)
    ensures t.Live? ==>
      PageView(false, Some(t.poll), false, keptId) == (if |t.poll.options| > 0 then Voting(t.poll) else Unavailable)
    ensures t.Ended? ==>
      PageView(false, None, true, Some(t.closedId)) == (if t.closedId != "" then ClosedLink(t.closedId) else Unavailable)
    ensures t.Idle? ==> PageView(false, None, false, keptId) == Waiting
  {
  }

  /** A list holding one active poll `p1`: its detail is requested and its options are shown. */
  lemma ScenarioActivePoll(detail: PollDetail)
    requires detail.id == "p1" && |detail.options| > 0
    ensures DetailRequest(ListOk([PollSummary("p1", "Q", Active, 0)])) == Some("p1")
    ensures PageView(false, Some(TickOf(ListOk([PollSummary("p1", "Q", Active, 0)]), DetailOk(detail)).poll), false, None)
      == Voting(detail)
  {
  }

  /** A list holding only a closed poll `p2`: the page links to the results of `p2`. */
  lemma ScenarioClosedPoll(detail: DetailReply)
    ensures TickOf(ListOk([PollSummary("p2", "Q", Closed, 3)]), detail) == Ended("p2")
    ensures PageView(false, None, true, Some("p2")) == ClosedLink("p2")
  {
  }

  /** The error text a failed vote leaves. */
  function VoteError(reply: VoteReply): (r: string)
    requires !reply.VoteOk?
    ensures r != ""
    ensures reply.VoteFailed? ==> r == OrElse(reply.message, VoteFailedDefault)
    ensures reply.VoteThrown? ==> r == NetworkError(reply.message)
  {
    match reply
    case VoteFailed(m) => OrElse(m, VoteFailedDefault)
    case VoteThrown(m) => NetworkError(m)
  }

  /** The voting page's state. */
  class VotePage {
    var poll: Option<PollDetail>
    var loading: bool
    var pollClosed: bool
    var closedPollId: Option<string>

    /** A closed flag comes with a remembered id and without a poll. */
    ghost predicate Valid()
      reads this
    {
      pollClosed ==> poll.None? && closedPollId.Some?
    }

    constructor ()
      ensures Valid() && poll == None && loading && !pollClosed && closedPollId == None
    {
      poll, loading, pollClosed, closedPollId := None, true, false, None;
    }

    /**
     * `fetchActivePoll`: one refresh, given the list reply and the reply the
     * detail request would get. Returns the id whose detail was requested.
     * A conclusion other than `Ended` keeps the remembered closed id.
     */
    method Refresh(list: ListReply, detail: DetailReply) returns (detailFor: Option<string>)
      requires Valid()
      modifies this`poll, this`pollClosed, this`closedPollId, this`loading
      ensures Valid() && !loading
      ensures detailFor == DetailRequest(list)
      ensures TickOf(list, detail).Live? ==>
        poll == Some(TickOf(list, detail).poll) && !pollClosed && closedPollId == old(closedPollId)
      ensures TickOf(list, detail).Ended? ==>
        poll == None && pollClosed && closedPollId == Some(TickOf(list, detail).closedId)
      ensures TickOf(list, detail).Idle? ==>
        poll == None && !pollClosed && closedPollId == old(closedPollId)
    {
      detailFor := None;
      if list.ListOk? && |list.polls| > 0 {
        var active := Find(list.polls, Active);
        if active.Some? {
          detailFor := Some(active.value.id);
          if detail.DetailOk? {
            poll := Some(detail.poll);
            pollClosed := false;
          } else {
            poll := None;
            pollClosed := false;
          }
        } else {
          var closed := Find(list.polls, Closed);
          if closed.Some? {
            pollClosed := true;
            closedPollId := Some(closed.value.id);
            poll := None;
          } else {
            poll := None;
            pollClosed := false;
          }
        }
      } else {
        poll := None;
        pollClosed := false;
      }
      loading := false;
    }
  }

  /** The voting card's state, for one poll's options. */
  class VotingCard {
    const pollId: string
    const options: seq<string>
    var selected: Option<nat>
    var hasVoted: bool
    var submitting: bool
    var error: string

    /**
     * A selection names an option; a vote, sent or accepted, carries a
     * selection; a vote is in flight only while none has been accepted.
     */
    ghost predicate Valid()
      reads this
    {
      && (selected.Some? ==> selected.value < |options|)
      && (hasVoted ==> selected.Some?)
      && (submitting ==> selected.Some? && !hasVoted)
    }

    constructor (pollId: string, options: seq<string>)
      ensures Valid() && this.pollId == pollId && this.options == options
      ensures selected == None && !hasVoted && !submitting && error == ""
    {
      this.pollId, this.options := pollId, options;
      selected, hasVoted, submitting, error := None, false, false, "";
    }

    /** The Vote button is enabled: an option is selected, no vote was accepted, none is in flight. */
    predicate VoteEnabled()
      requires Valid()
      reads this
      ensures VoteEnabled() ==> selected.Some? && selected.value < |options| && !hasVoted && !submitting
      ensures !VoteEnabled() ==> selected.None? || hasVoted || submitting
    {
      selected.Some? && !hasVoted && !submitting
    }

    /**
     * A click on option `i`: ignored once a vote was accepted, and while a vote
     * is in flight (the option buttons are disabled then); otherwise it selects `i`.
     */
    method Click(i: nat)
      requires Valid() && i < |options|
      modifies this`selected
      ensures Valid()
      ensures hasVoted || submitting ==> selected == old(selected)
      ensures !hasVoted && !submitting ==> selected == Some(i)
    {
      if !submitting && !hasVoted {
        selected := Some(i);
      }
    }

    /**
     * A press of the Vote button and the synchronous part of `submitVote`:
     * nothing while the button is disabled (no selection, a vote accepted or
     * one in flight); otherwise the busy flag, and the option index sent as
     * the request body. Once a vote was accepted no further one is sent.
     */
    method BeginSubmit() returns (optionIndex: Option<nat>)
      requires Valid()
      modifies this`submitting, this`error
      ensures Valid()
      ensures optionIndex.Some? <==> old(VoteEnabled())
      ensures optionIndex.Some? ==> optionIndex == selected && submitting && error == ""
      ensures optionIndex.None? ==> submitting == old(submitting) && error == old(error)
      ensures old(hasVoted) ==> optionIndex == None && hasVoted
    {
      if !VoteEnabled() {
        return None;
      }
      submitting := true;
      error := "";
      optionIndex := selected;
    }

    /** The reply to the vote request; `submitting` is cleared whatever it says and the selection is kept. */
    method FinishSubmit(reply: VoteReply)
      requires Valid() && submitting
      modifies this`hasVoted, this`error, this`submitting
      ensures Valid() && !submitting
      ensures reply.VoteOk? ==> hasVoted && error == old(error)
      ensures !reply.VoteOk? ==> !hasVoted && error == VoteError(reply)
    {
      if reply.VoteOk? {
        hasVoted := true;
      } else {
        error := VoteError(reply);
      }
      submitting := false;
    }
  }
}
