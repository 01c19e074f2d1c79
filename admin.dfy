/**
 * The admin page: an editor for a new poll's question and option list, the
 * client-side validation that builds the create request, and the lifecycle of
 * the displayed active poll (adopted from the poll list, replaced by a created
 * poll, cleared by a successful close).
 */
module Admin {
  import opened Polls
  import opened Strings

  const QuestionMissing := "Please enter a question"
  const TooFewOptions := "Please provide at least 2 options"
  const CreateFailedDefault := "Failed to create poll"
  const CloseFailedDefault := "Failed to close poll"

  /** The body of `POST /polls/create`. */
  datatype CreateRequest = CreateRequest(question: string, options: seq<string>)

  /** The reply to the create request: `success` with the new poll, `success` false, or a thrown error. */
  datatype CreateReply = Created(pollId: string, poll: PollSummary) | CreateFailed(message: string) | CreateThrown(message: string)

  /** The reply to `PUT /polls/:id/close`. */
  datatype CloseReply = CloseOk | CloseFailed(message: string) | CloseThrown(message: string)

  /** One edit of the option list, as the form's controls issue them. */
  datatype OptionEdit = Add | Remove(index: nat) | Change(index: nat, value: string) | Reset

  /** `options.filter((_, i) => i !== index)`: the list without its entry at `index`. */
  function RemoveAt(options: seq<string>, index: nat): (r: seq<string>)
    ensures index < |options| ==> |r| == |options| - 1
    ensures index < |options| ==> forall j :: 0 <= j < index ==> r[j] == options[j]
    ensures index < |options| ==> forall j :: index <= j < |r| ==> r[j] == options[j + 1]
    ensures index >= |options| ==> r == options
  {
    if index < |options| then options[..index] + options[index + 1..] else options
  }

  /**
   * The option list after one edit: `addOption`, `removeOption` (which acts only
   * on a list of more than two entries), `handleOptionChange` and the form reset.
   * The form only issues `Change` for an index it displays; any other index
   * leaves the list as it is.
   */
  function ApplyEdit(options: seq<string>, e: OptionEdit): (r: seq<string>)
    ensures |options| >= 2 ==> |r| >= 2
    ensures e.Add? ==> |r| == |options| + 1 && r[..|options|] == options && r[|options|] == ""
    ensures e.Remove? ==> r == if |options| > 2 then RemoveAt(options, e.index) else options
    ensures e.Change? && e.index < |options| ==>
      |r| == |options| && r[e.index] == e.value &&
      forall j :: 0 <= j < |r| && j != e.index ==> r[j] == options[j]
    ensures e.Reset? ==> r == ["", ""]
  {
    match e
    case Add => options + [""]
    case Remove(i) => if |options| > 2 then RemoveAt(options, i) else options
    case Change(i, v) => if i < |options| then options[i := v] else options
    case Reset => ["", ""]
  }

  /** The option list after a sequence of edits, applied in order. */
  function ApplyAll(options: seq<string>, edits: seq<OptionEdit>): seq<string>
    decreases |edits|
  {
    if edits == [] then options else ApplyAll(ApplyEdit(options, edits[0]), edits[1..])
  }

  /** However the list is edited, it never holds fewer than two entries. */
  lemma {:induction false} EditsKeepTwoOptions(options: seq<string>, edits: seq<OptionEdit>)
    requires |options| >= 2
    ensures |ApplyAll(options, edits)| >= 2
    decreases |edits|
  {
    if edits != [] {
      EditsKeepTwoOptions(ApplyEdit(options, edits[0]), edits[1..]);
    }
  }

  /** Starting from the initial `['', '']`, every reachable option list has at least two entries. */
  lemma FormAlwaysHasTwoOptions(edits: seq<OptionEdit>)
    ensures |ApplyAll(["", ""], edits)| >= 2
  {
    EditsKeepTwoOptions(["", ""], edits);
  }

  /**
   * `options.filter(opt => opt.trim())`: the non-blank options, in their order
   * and untrimmed (`opt.trim()` is truthy exactly for a non-blank `opt`, by
   * `TrimEmptyIffBlank`).
   */
  function Filled(options: seq<string>): (r: seq<string>)
    ensures |r| <= |options|
    ensures forall i :: 0 <= i < |r| ==> !IsBlank(r[i])
    decreases |options|
  {
    if options == [] then []
    else
      var rest := Filled(options[1..]);
      if !IsBlank(options[0]) then [options[0]] + rest else rest
  }

  /** The filter keeps exactly the non-blank options: none is lost and none is invented. */
  lemma {:induction false} FilledMembers(options: seq<string>, x: string)
    ensures x in Filled(options) <==> x in options && !IsBlank(x)
    decreases |options|
  {
    if options != [] {
      FilledMembers(options[1..], x);
      assert x in options <==> x == options[0] || x in options[1..];
    }
  }

  /** Filtering distributes over concatenation, so `Filled` keeps the options' order. */
  lemma {:induction false} FilledAppend(a: seq<string>, b: seq<string>)
    ensures Filled(a + b) == Filled(a) + Filled(b)
    decreases |a|
  {
    if a == [] {
      assert a + b == b;
    } else {
      var ab := a + b;
      assert ab[0] == a[0] && ab[1..] == a[1..] + b;
      FilledAppend(a[1..], b);
      var head := if !IsBlank(a[0]) then [a[0]] else [];
      assert Filled(ab) == head + Filled(ab[1..]);
    }
  }

  /** A list without blank entries passes the filter unchanged. */
  lemma {:induction false} FilledKeepsNonBlank(options: seq<string>)
    requires forall i :: 0 <= i < |options| ==> !IsBlank(options[i])
    ensures Filled(options) == options
    decreases |options|
  {
    if options != [] {
      FilledKeepsNonBlank(options[1..]);
    }
  }

  /**
   * The validation of `submitQuestion`: the question is checked first, then
   * the number of non-blank options; a request is built only when both pass.
   */
  function Validate(question: string, options: seq<string>): (r: Result<CreateRequest>)
    ensures IsBlank(question) ==> r == Err(QuestionMissing)
    ensures !IsBlank(question) && |Filled(options)| < 2 ==> r == Err(TooFewOptions)
    ensures r.Ok? <==> !IsBlank(question) && |Filled(options)| >= 2
    ensures r.Ok? ==> r.value.question == Trim(question) && !IsBlank(r.value.question)
    ensures r.Ok? ==> r.value.options == Filled(options) && |r.value.options| >= 2
  {
    TrimEmptyIffBlank(question);
    if Trim(question) == "" then Err(QuestionMissing)
    else if |Filled(options)| < 2 then Err(TooFewOptions)
    else Ok(CreateRequest(Trim(question), Filled(options)))
  }

  /** The error text a failed create request leaves. */
  function CreateError(reply: CreateReply): (r: string)
    requires !reply.Created?
    ensures r != ""
    ensures reply.CreateFailed? ==> r == OrElse(reply.message, CreateFailedDefault)
    ensures reply.CreateThrown? ==> r == NetworkError(reply.message)
  {
    match reply
    case CreateFailed(m) => OrElse(m, CreateFailedDefault)
    case CreateThrown(m) => NetworkError(m)
  }

  /** The error text a failed close request leaves. */
  function CloseError(reply: CloseReply): (r: string)
    requires !reply.CloseOk?
    ensures r != ""
    ensures reply.CloseFailed? ==> r == OrElse(reply.message, CloseFailedDefault)
    ensures reply.CloseThrown? ==> r == NetworkError(reply.message)
  {
    match reply
    case CloseFailed(m) => OrElse(m, CloseFailedDefault)
    case CloseThrown(m) => NetworkError(m)
  }

  /** The poll `fetchActivePoll` adopts from a list reply, if any: the first `active` entry. */
  function AdoptedPoll(reply: ListReply): (r: Option<PollSummary>)
    ensures r.Some? <==> reply.ListOk? && exists k :: IsFirst(reply.polls, Active, k)
    ensures r.Some? ==> exists k :: IsFirst(reply.polls, Active, k) && r.value == reply.polls[k]
  {
    if reply.ListOk? && |reply.polls| > 0 then Find(reply.polls, Active) else None
  }

  /** The admin page's state: one field per piece of component state. */
  class AdminPage {
    var question: string
    var options: seq<string>
    var submitted: bool
    var loading: bool
    var error: string
    var activePoll: Option<PollSummary>
    var createdPollId: Option<string>
    var closingPoll: bool

    /** The form always shows at least two option fields. */
    ghost predicate Valid()
      reads this
    {
      |options| >= 2
    }

    constructor ()
      ensures Valid()
      ensures question == "" && options == ["", ""] && !submitted && !loading && error == ""
      ensures activePoll == None && createdPollId == None && !closingPoll
    {
      question, options, submitted, loading, error := "", ["", ""], false, false, "";
      activePoll, createdPollId, closingPoll := None, None, false;
    }

    /** `fetchActivePoll`: adopt the first active poll of the list; otherwise keep what is shown. */
    method FetchActivePoll(reply: ListReply)
      requires Valid()
      modifies this`activePoll
      ensures Valid()
      ensures AdoptedPoll(reply).Some? ==> activePoll == AdoptedPoll(reply)
      ensures AdoptedPoll(reply).None? ==> activePoll == old(activePoll)
    {
      if reply.ListOk? && |reply.polls| > 0 {
        var active := Find(reply.polls, Active);
        if active.Some? {
          activePoll := active;
        }
      }
    }

    /** `handleQuestionChange`: the new text replaces the question and clears the error. */
    method ChangeQuestion(value: string)
      requires Valid()
      modifies this`question, this`error
      ensures Valid()
      ensures question == value && error == ""
    {
      question := value;
      error := "";
    }

    /** `handleOptionChange`: entry `index` becomes `value`; length and the other entries stay. */
    method ChangeOption(index: nat, value: string)
      requires Valid() && index < |options|
      modifies this`options
      ensures Valid()
      ensures options == ApplyEdit(old(options), Change(index, value))
      ensures |options| == old(|options|) && options[index] == value
      ensures forall j :: 0 <= j < |options| && j != index ==> options[j] == old(options[j])
    {
      var copy := options;
      copy := copy[index := value];
      options := copy;
    }

    /** `addOption`: one empty entry at the end. */
    method AddOption()
      requires Valid()
      modifies this`options
      ensures Valid()
      ensures options == ApplyEdit(old(options), Add)
      ensures options == old(options) + [""]
    {
      options := options + [""];
    }

    /** `removeOption`: drops entry `index`, but only from a list of more than two. */
    method RemoveOption(index: nat)
      requires Valid()
      modifies this`options
      ensures Valid()
      ensures options == ApplyEdit(old(options), Remove(index))
      ensures old(|options|) <= 2 ==> options == old(options)
    {
      if |options| > 2 {
        options := RemoveAt(options, index);
      }
    }

    /**
     * The synchronous part of `submitQuestion`: validation, then (if it passes)
     * the busy flag and the request body. Returns the request issued, if any.
     */
    method BeginSubmit() returns (request: Option<CreateRequest>)
      requires Valid()
      modifies this`loading, this`error
      ensures Valid()
      ensures Validate(question, options).Err? ==>
        request == None && error == Validate(question, options).message && loading == old(loading)
      ensures Validate(question, options).Ok? ==>
        request == Some(Validate(question, options).value) && loading && error == ""
    {
      TrimEmptyIffBlank(question);
      if Trim(question) == "" {
        error := QuestionMissing;
        return None;
      }
      var filled := Filled(options);
      if |filled| < 2 {
        error := TooFewOptions;
        return None;
      }
      loading := true;
      error := "";
      request := Some(CreateRequest(Trim(question), filled));
    }

    /** The reply to the create request; `loading` is cleared whatever it says. */
    method FinishSubmit(reply: CreateReply)
      requires Valid() && loading
      modifies this`createdPollId, this`activePoll, this`submitted, this`error, this`loading
      ensures Valid() && !loading
      ensures reply.Created? ==>
        createdPollId == Some(reply.pollId) && activePoll == Some(reply.poll) && submitted && error == old(error)
      ensures !reply.Created? ==>
        createdPollId == old(createdPollId) && activePoll == old(activePoll) && submitted == old(submitted) &&
        error == CreateError(reply)
    {
      if reply.Created? {
        createdPollId := Some(reply.pollId);
        activePoll := Some(reply.poll);
        submitted := true;
      } else {
        error := CreateError(reply);
      }
      loading := false;
    }

    /** The timer callback scheduled by a successful create: back to an empty form. */
    method ResetForm()
      modifies this`question, this`options, this`submitted
      ensures Valid()
      ensures question == "" && options == ApplyEdit(old(options), Reset) && !submitted
    {
      question := "";
      options := ["", ""];
      submitted := false;
    }

    /** The "Create Another" button: leave the confirmation without touching the form. */
    method CreateAnother()
      requires Valid()
      modifies this`submitted
      ensures Valid()
      ensures !submitted
    {
      submitted := false;
    }

    /**
     * The synchronous part of `closePoll`: nothing without an active poll;
     * otherwise the busy flag, and the id whose close is requested.
     */
    method BeginClose() returns (target: Option<string>)
      requires Valid()
      modifies this`closingPoll, this`error
      ensures Valid()
      ensures activePoll.None? ==> target == None && closingPoll == old(closingPoll) && error == old(error)
      ensures activePoll.Some? ==> target == Some(activePoll.value.id) && closingPoll && error == ""
    {
      if activePoll.None? {
        return None;
      }
      closingPoll := true;
      error := "";
      target := Some(activePoll.value.id);
    }

    /** The reply to the close request; `closingPoll` is cleared whatever it says. */
    method FinishClose(reply: CloseReply)
      requires Valid() && closingPoll
      modifies this`activePoll, this`error, this`closingPoll
      ensures Valid() && !closingPoll
      ensures reply.CloseOk? ==> activePoll == None && error == old(error)
      ensures !reply.CloseOk? ==> activePoll == old(activePoll) && error == CloseError(reply)
    {
      if reply.CloseOk? {
        activePoll := None;
      } else {
        error := CloseError(reply);
      }
      closingPoll := false;
    }
  }
}
