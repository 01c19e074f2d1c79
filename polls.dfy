/**
 * The values the backend sends to the three pages, and the selection that all
 * three pages make from a poll list: the first entry with a given status
 * (JavaScript's `Array.prototype.find` with `p => p.status === s`).
 */
module Polls {

  datatype Option<+T> = None | Some(value: T)

  /** The outcome of a client-side check: a value, or the message to show. */
  datatype Result<+T> = Ok(value: T) | Err(message: string)

  /**
   * The `status` field of a poll; any other string the server sends is `Other`.
   * `Other` never carries "active" or "closed": those strings are `Active` and `Closed`.
   */
  datatype Status = Active | Closed | Other(name: string)

  /** One entry of the `GET /polls` list. */
  datatype PollSummary = PollSummary(id: string, question: string, status: Status, totalVotes: int)

  /**
   * The reply to `GET /polls` as a page sees it. A reply with `success` set but
   * no `polls` array takes the same path as `ListFail` on every page.
   */
  datatype ListReply =
    | ListOk(polls: seq<PollSummary>)
    | ListFail
    | ListThrown(message: string)

  const NetworkErrorPrefix := "Network error: "

  /** `message || fallback`: an absent message and an empty one are both falsy. */
  function OrElse(message: string, fallback: string): (r: string)
    ensures message != "" ==> r == message
    ensures message == "" ==> r == fallback
    ensures fallback != "" ==> r != ""
  {
    if message != "" then message else fallback
  }

  /** The text shown when a request throws: `'Network error: ' + err.message`. */
  function NetworkError(message: string): (r: string)
    ensures |r| == |NetworkErrorPrefix| + |message| && r != ""
    ensures r[..|NetworkErrorPrefix|] == NetworkErrorPrefix && r[|NetworkErrorPrefix|..] == message
  {
    NetworkErrorPrefix + message
  }

  /** Index `k` holds the first entry of `polls` whose status is `s`. */
  ghost predicate IsFirst(polls: seq<PollSummary>, s: Status, k: int)
  {
    0 <= k < |polls| && polls[k].status == s && forall j :: 0 <= j < k ==> polls[j].status != s
  }

  /** The index `find` stops at, if any. */
  function FirstIndex(polls: seq<PollSummary>, s: Status): (r: Option<nat>)
    ensures r.Some? ==> IsFirst(polls, s, r.value)
    ensures r.None? <==> forall j :: 0 <= j < |polls| ==> polls[j].status != s
    decreases |polls|
  {
    if |polls| == 0 then None
    else if polls[0].status == s then Some(0)
    else match FirstIndex(polls[1..], s)
      case None => None
      case Some(k) => Some(k + 1)
  }

  /** `polls.find(p => p.status === s)`, with `undefined` as `None`. */
  function Find(polls: seq<PollSummary>, s: Status): (r: Option<PollSummary>)
    ensures r.Some? <==> exists k :: IsFirst(polls, s, k)
    ensures forall k :: IsFirst(polls, s, k) ==> r == Some(polls[k])
    ensures r.Some? ==> r.value in polls && r.value.status == s
  {
    match FirstIndex(polls, s)
    case None => None
    case Some(k) => Some(polls[k])
  }

  /** Entries before the first match do not affect `find`; a match earlier in the list wins. */
  lemma {:induction false} FindAppend(front: seq<PollSummary>, back: seq<PollSummary>, s: Status)
    ensures Find(front + back, s) == if Find(front, s).Some? then Find(front, s) else Find(back, s)
  {
    var all := front + back;
    match FirstIndex(front, s)
    case Some(k) =>
      assert IsFirst(all, s, k);
    case None =>
      match FirstIndex(back, s)
      case Some(k) =>
        assert all[|front| + k] == back[k];
        forall j | 0 <= j < |front| + k ensures all[j].status != s {
          if j < |front| { assert all[j] == front[j]; } else { assert all[j] == back[j - |front|]; }
        }
        assert IsFirst(all, s, |front| + k);
      case None =>
        forall j | 0 <= j < |all| ensures all[j].status != s {
          if j < |front| { assert all[j] == front[j]; } else { assert all[j] == back[j - |front|]; }
        }
        assert FirstIndex(all, s).None?;
  }
}
