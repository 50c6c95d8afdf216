/**
 * The upload/poll state machine of the browser client
 * (frontend/hooks/useFileUpload.ts). A run requests an upload slot, PUTs the
 * file to the slot's URL, then checks the conversion status up to
 * MaxRetries times, waiting before each check. Slot and transfer failures
 * end the run at once; failed checks are swallowed until the budget is
 * spent, and then the run ends with a fixed timeout message.
 *
 * The backend's answers are inputs. Everything the run does that an
 * observer can see is logged as an Event: each state update, each wait and
 * each request sent.
 */
module UploadHook {
  import opened Types
  import opened Text
  import Api = ApiService

  const MaxRetries: nat := 20

  const StartingLabel := "Starting upload..."
  const RequestingLabel := "Requesting upload URL..."
  const UploadingLabel := "Uploading file to Cloud Storage..."
  const ProcessingLabel := "Processing conversion..."
  const CompleteLabel := "Conversion complete!"
  const TimeoutMessage := "Timed out waiting for conversion"
  const FallbackMessage := "Upload failed. Please try again."

  /** The progress label shown before status check number `attempt`: "Checking status... (attempt/20)". */
  function CheckingLabel(attempt: nat): string {
    "Checking status... (" + DecimalString(attempt) + "/" + DecimalString(MaxRetries) + ")"
  }

  /** The hook's four observable fields. */
  datatype UploadState = UploadState(isUploading: bool, uploadProgress: string, downloadUrl: Option<string>, error: Option<string>)

  /** The initial state, which `resetState` restores. */
  const Idle := UploadState(false, "", None, None)

  datatype Event =
    | StateSet(state: UploadState)  // a `setState` call, with the state it leaves behind
    | Wait                          // one 5-second pause before a status check
    | Sent(request: Api.Request)    // a request handed to the transport

  /** The whole effect of one `uploadFile` call. */
  datatype Run = Run(outcome: Result<ConversionResult, Api.Rejection>, events: seq<Event>, final: UploadState)

  /** The error text the catch block stores: the rejection's message, or the fallback when that is empty. */
  function ErrorText(thrown: Api.Rejection): (text: string)
    ensures text != ""
    ensures Api.Message(thrown) != "" ==> text == Api.Message(thrown)
    ensures Api.Message(thrown) == "" ==> text == FallbackMessage
  {
    if Api.Message(thrown) != "" then Api.Message(thrown) else FallbackMessage
  }

  /** The state the catch block leaves. */
  function Settled(s: UploadState, thrown: Api.Rejection): UploadState {
    s.(isUploading := false, uploadProgress := "", error := Some(ErrorText(thrown)))
  }

  /** The state a successful status check leaves. */
  function Completed(s: UploadState, result: ConversionResult): UploadState {
    s.(isUploading := false, uploadProgress := CompleteLabel, downloadUrl := Some(result.downloadUrl))
  }

  /** The catch block as a run: one state update, then the rejection is rethrown. */
  function Fail(s: UploadState, thrown: Api.Rejection): Run {
    Run(Err(thrown), [StateSet(Settled(s, thrown))], Settled(s, thrown))
  }

  function Prepend(events: seq<Event>, r: Run): Run {
    r.(events := events + r.events)
  }

  /** One attempt of the polling loop: the wait, the label update, the status check. */
  function Attempt(checking: UploadState, key: string): seq<Event> {
    [Wait, StateSet(checking), Sent(Api.CheckStatusRequest(key))]
  }

  /**
   * The polling loop from `retries` failed checks on, in state `s`, keyed by
   * `key`; `polls[i]` is the answer to check number i + 1.
   */
  function PollRun(key: string, polls: seq<Api.Transport<ConversionResult>>, retries: nat, s: UploadState): Run
    requires retries <= MaxRetries == |polls|
    decreases MaxRetries - retries
  {
    if retries == MaxRetries then Fail(s, Api.Thrown(TimeoutMessage))
    else
      var checking := s.(uploadProgress := CheckingLabel(retries + 1));
      var attempt := Attempt(checking, key);
      match Api.CheckStatus(polls[retries])
      case Ok(result) => Run(Ok(result), attempt + [StateSet(Completed(checking, result))], Completed(checking, result))
      case Err(_) => Prepend(attempt, PollRun(key, polls, retries + 1, checking))
  }

  /** The states `uploadFile` sets before its first request, then before each phase. */
  const Starting := UploadState(true, StartingLabel, None, None)
  const Requesting := UploadState(true, RequestingLabel, None, None)
  const Uploading := UploadState(true, UploadingLabel, None, None)
  const Processing := UploadState(true, ProcessingLabel, None, None)

  /** The events `uploadFile` produces up to and including the slot request. */
  function Opening(file: File): seq<Event> {
    [StateSet(Idle), StateSet(Starting), StateSet(Requesting), Sent(Api.GetUploadUrlRequest(file.name))]
  }

  /** One `uploadFile(file)` call, given what the backend answers to each of its requests. */
  function UploadRun(file: File, slot: Api.Transport<UploadResponse>, transfer: Api.Transport<()>,
                     polls: seq<Api.Transport<ConversionResult>>): Run
    requires |polls| == MaxRetries
  {
    match Api.GetUploadUrl(slot)
    case Err(thrown) => Prepend(Opening(file), Fail(Requesting, thrown))
    case Ok(uploadData) => Prepend(Opening(file), TransferRun(file, uploadData, transfer, polls))
  }

  /** The rest of the call once the slot request succeeded: the PUT, then polling by the server's file name. */
  function TransferRun(file: File, uploadData: UploadResponse, transfer: Api.Transport<()>,
                       polls: seq<Api.Transport<ConversionResult>>): Run
    requires |polls| == MaxRetries
  {
    var transferring := [StateSet(Uploading), Sent(Api.UploadFileRequest(uploadData.uploadUrl, file))];
    match Api.UploadFile(transfer)
    case Err(thrown) => Prepend(transferring, Fail(Uploading, thrown))
    case Ok(_) => Prepend(transferring + [StateSet(Processing)], PollRun(uploadData.fileName, polls, 0, Processing))
  }

  /** The hook instance: its state fields, updated in place by its two callbacks. */
  class FileUploadHook {
    var isUploading: bool
    var uploadProgress: string
    var downloadUrl: Option<string>
    var error: Option<string>

    function State(): UploadState
      reads this
    {
      UploadState(isUploading, uploadProgress, downloadUrl, error)
    }

    constructor ()
      ensures State() == Idle
    {
      isUploading, uploadProgress, downloadUrl, error := false, "", None, None;
    }

    /** `resetState`: back to the initial state, whatever the state was. */
    method ResetState()
      modifies this
      ensures State() == Idle
    {
      isUploading, uploadProgress, downloadUrl, error := false, "", None, None;
    }

    /** The catch block's state update. */
    method Settle(thrown: Api.Rejection)
      modifies this
      ensures State() == Settled(old(State()), thrown)
    {
      isUploading, uploadProgress, error := false, "", Some(ErrorText(thrown));
    }

    /**
     * `uploadFile(file)`. The upload button is disabled while a run is in
     * flight, so a run never starts while another one is uploading.
     */
    method UploadFile(file: File, slot: Api.Transport<UploadResponse>, transfer: Api.Transport<()>,
                      polls: seq<Api.Transport<ConversionResult>>)
      returns (outcome: Result<ConversionResult, Api.Rejection>, events: seq<Event>)
      requires !isUploading
      requires |polls| == MaxRetries
      modifies this
      ensures Run(outcome, events, State()) == UploadRun(file, slot, transfer, polls)
      ensures !isUploading && downloadUrl.Some? != error.Some?
      ensures outcome.Ok? ==> downloadUrl == Some(outcome.value.downloadUrl)
      ensures outcome.Err? ==> error == Some(ErrorText(outcome.error))
    {
      UploadTerminal(file, slot, transfer, polls);
      ResetState();
      events := [StateSet(State())];
      isUploading, uploadProgress := true, StartingLabel;
      events := events + [StateSet(State())];

      uploadProgress := RequestingLabel;
      events := events + [StateSet(State()), Sent(Api.GetUploadUrlRequest(file.name))];
      assert events == Opening(file);
      var slotResult := Api.GetUploadUrl(slot);
      if slotResult.Err? {
        Settle(slotResult.error);
        events := events + [StateSet(State())];
        outcome := Err(slotResult.error);
        return;
      }
      var rest;
      outcome, rest := Transfer(file, slotResult.value, transfer, polls);
      events := events + rest;
    }

    /** The rest of `uploadFile` once the slot request succeeded: the PUT, then polling. */
    method Transfer(file: File, uploadData: UploadResponse, transfer: Api.Transport<()>,
                    polls: seq<Api.Transport<ConversionResult>>)
      returns (outcome: Result<ConversionResult, Api.Rejection>, events: seq<Event>)
      requires State() == Requesting
      requires |polls| == MaxRetries
      modifies this
      ensures Run(outcome, events, State()) == TransferRun(file, uploadData, transfer, polls)
    {
      uploadProgress := UploadingLabel;
      events := [StateSet(State()), Sent(Api.UploadFileRequest(uploadData.uploadUrl, file))];
      var transferResult := Api.UploadFile(transfer);
      if transferResult.Err? {
        Settle(transferResult.error);
        events := events + [StateSet(State())];
        outcome := Err(transferResult.error);
        return;
      }

      uploadProgress := ProcessingLabel;
      events := events + [StateSet(State())];
      var polling;
      outcome, polling := Poll(uploadData.fileName, polls);
      events := events + polling;
    }

    /** The polling loop of `uploadFile`, keyed by the file name the server returned. */
    method Poll(key: string, polls: seq<Api.Transport<ConversionResult>>)
      returns (outcome: Result<ConversionResult, Api.Rejection>, events: seq<Event>)
      requires |polls| == MaxRetries
      modifies this
      ensures Run(outcome, events, State()) == PollRun(key, polls, 0, old(State()))
    {
      events := [];
      var retries := 0;
      while retries < MaxRetries
        invariant retries <= MaxRetries
        invariant Prepend(events, PollRun(key, polls, retries, State())) == PollRun(key, polls, 0, old(State()))
      {
        var before := State();
        ghost var logged := events;
        var checking := before.(uploadProgress := CheckingLabel(retries + 1));
        var attempt := Attempt(checking, key);
        uploadProgress := CheckingLabel(retries + 1);
        events := events + attempt;
        var result := Api.CheckStatus(polls[retries]);
        if result.Ok? {
          isUploading, uploadProgress, downloadUrl := false, CompleteLabel, Some(result.value.downloadUrl);
          assert State() == Completed(checking, result.value);
          events := events + [StateSet(State())];
          outcome := Ok(result.value);
          assert PollRun(key, polls, retries, before) == Run(outcome, attempt + [StateSet(State())], State());
          AppendAssoc(logged, attempt, [StateSet(State())]);
          return;
        }
        retries := retries + 1;
        PrependAssoc(logged, attempt, PollRun(key, polls, retries, checking));
      }
      outcome := Err(Api.Thrown(TimeoutMessage));
      ghost var before := State();
      assert PollRun(key, polls, retries, before) == Fail(before, outcome.error);
      Settle(outcome.error);
      events := events + [StateSet(State())];
    }
  }

  lemma PrependAssoc(a: seq<Event>, b: seq<Event>, r: Run)
    ensures Prepend(a, Prepend(b, r)) == Prepend(a + b, r)
  {
    assert a + (b + r.events) == (a + b) + r.events;
  }

  // ---------------------------------------------------------------------
  // Terminal state

  lemma {:induction false} PollTerminal(key: string, polls: seq<Api.Transport<ConversionResult>>, retries: nat, s: UploadState)
    requires retries <= MaxRetries == |polls|
    requires s.downloadUrl.None? && s.error.None?
    ensures var r := PollRun(key, polls, retries, s);
      && (r.outcome.Ok? ==> r.final == UploadState(false, CompleteLabel, Some(r.outcome.value.downloadUrl), None))
      && (r.outcome.Err? ==> r.outcome.error == Api.Thrown(TimeoutMessage)
                             && r.final == UploadState(false, "", None, Some(TimeoutMessage)))
    decreases MaxRetries - retries
  {
    if retries < MaxRetries && Api.CheckStatus(polls[retries]).Err? {
      PollTerminal(key, polls, retries + 1, s.(uploadProgress := CheckingLabel(retries + 1)));
    }
  }

  /**
   * Every run ends not uploading, with exactly one of `downloadUrl` and
   * `error` set: the download URL of the result it resolves with, or the
   * text of the rejection it rethrows.
   */
  lemma UploadTerminal(file: File, slot: Api.Transport<UploadResponse>, transfer: Api.Transport<()>,
                       polls: seq<Api.Transport<ConversionResult>>)
    requires |polls| == MaxRetries
    ensures var r := UploadRun(file, slot, transfer, polls);
      && !r.final.isUploading
      && (r.outcome.Ok? <==> r.final.downloadUrl.Some?)
      && (r.outcome.Err? <==> r.final.error.Some?)
      && (r.outcome.Ok? ==> r.final == UploadState(false, CompleteLabel, Some(r.outcome.value.downloadUrl), None))
      && (r.outcome.Err? ==> r.final == UploadState(false, "", None, Some(ErrorText(r.outcome.error))))
  {
    if slot.Resolved? && transfer.Resolved? {
      PollTerminal(slot.response.data.fileName, polls, 0, Processing);
    }
  }

  // ---------------------------------------------------------------------
  // What the event log shows

  /** The requests in a log, in the order they were sent. */
  function Requests(t: seq<Event>): seq<Api.Request> {
    if t == [] then [] else (if t[0].Sent? then [t[0].request] else []) + Requests(t[1..])
  }

  /** Status checks are the only GET requests the hook sends. */
  predicate IsStatusCheck(e: Event) {
    e.Sent? && e.request.verb == Api.Get
  }

  /** The number of status checks in `t`. */
  function Checks(t: seq<Event>): nat {
    if t == [] then 0 else (if IsStatusCheck(t[0]) then 1 else 0) + Checks(t[1..])
  }

  function Waits(t: seq<Event>): nat {
    if t == [] then 0 else (if t[0] == Wait then 1 else 0) + Waits(t[1..])
  }

  function Repeat(r: Api.Request, n: nat): (rs: seq<Api.Request>)
    ensures |rs| == n && forall i | 0 <= i < n :: rs[i] == r
  {
    if n == 0 then [] else [r] + Repeat(r, n - 1)
  }

  lemma AppendAssoc<T>(x: seq<T>, y: seq<T>, z: seq<T>)
    ensures x + (y + z) == (x + y) + z
  {
  }

  lemma {:induction false} RequestsAppend(a: seq<Event>, b: seq<Event>)
    ensures Requests(a + b) == Requests(a) + Requests(b)
    decreases |a|
  {
    if a == [] {
      assert a + b == b;
    } else {
      assert (a + b)[0] == a[0];
      assert (a + b)[1..] == a[1..] + b;
      RequestsAppend(a[1..], b);
      AppendAssoc(if a[0].Sent? then [a[0].request] else [], Requests(a[1..]), Requests(b));
    }
  }

  lemma {:induction false} ChecksAppend(a: seq<Event>, b: seq<Event>)
    ensures Checks(a + b) == Checks(a) + Checks(b)
    decreases |a|
  {
    if a == [] {
      assert a + b == b;
    } else {
      assert (a + b)[1..] == a[1..] + b;
      ChecksAppend(a[1..], b);
    }
  }

  lemma {:induction false} WaitsAppend(a: seq<Event>, b: seq<Event>)
    ensures Waits(a + b) == Waits(a) + Waits(b)
    decreases |a|
  {
    if a == [] {
      assert a + b == b;
    } else {
      assert (a + b)[1..] == a[1..] + b;
      WaitsAppend(a[1..], b);
    }
  }

  /** The requests, checks and waits of two logs in a row add up. */
  lemma LogAppend(a: seq<Event>, b: seq<Event>)
    ensures Requests(a + b) == Requests(a) + Requests(b)
    ensures Checks(a + b) == Checks(a) + Checks(b)
    ensures Waits(a + b) == Waits(a) + Waits(b)
  {
    RequestsAppend(a, b);
    ChecksAppend(a, b);
    WaitsAppend(a, b);
  }

  /** The checks made from `retries` failed checks on: up to the first answered one, at most the remaining budget. */
  function ChecksMade(polls: seq<Api.Transport<ConversionResult>>, retries: nat): (n: nat)
    requires retries <= MaxRetries == |polls|
    ensures n <= MaxRetries - retries
    ensures retries < MaxRetries ==> 1 <= n
    decreases MaxRetries - retries
  {
    if retries == MaxRetries then 0
    else if polls[retries].Resolved? then 1
    else 1 + ChecksMade(polls, retries + 1)
  }

  lemma SingleLog(e: Event)
    ensures Requests([e]) == (if e.Sent? then [e.request] else [])
    ensures Checks([e]) == (if IsStatusCheck(e) then 1 else 0)
    ensures Waits([e]) == (if e == Wait then 1 else 0)
  {
    assert [e][1..] == [];
  }

  lemma AttemptLog(checking: UploadState, key: string)
    ensures var attempt := Attempt(checking, key);
      && Requests(attempt) == [Api.CheckStatusRequest(key)]
      && Checks(attempt) == 1 && Waits(attempt) == 1
  {
    var check := Sent(Api.CheckStatusRequest(key));
    SingleLog(Wait);
    SingleLog(StateSet(checking));
    SingleLog(check);
    LogAppend([Wait], [StateSet(checking)]);
    assert Attempt(checking, key) == [Wait, StateSet(checking)] + [check];
    LogAppend([Wait, StateSet(checking)], [check]);
  }

  /** One step of the polling loop: an attempt, then either the success update or the rest of the loop. */
  lemma PollUnfold(key: string, polls: seq<Api.Transport<ConversionResult>>, retries: nat, s: UploadState)
    requires retries < MaxRetries == |polls|
    ensures var checking := s.(uploadProgress := CheckingLabel(retries + 1));
      PollRun(key, polls, retries, s).events
        == Attempt(checking, key)
           + (if polls[retries].Resolved? then [StateSet(Completed(checking, polls[retries].response.data))]
              else PollRun(key, polls, retries + 1, checking).events)
  {
  }

  /**
   * The polling loop sends one status check per attempt, always keyed by
   * `key`, and waits exactly once before each.
   */
  lemma {:induction false} PollLog(key: string, polls: seq<Api.Transport<ConversionResult>>, retries: nat, s: UploadState)
    requires retries <= MaxRetries == |polls|
    ensures var t := PollRun(key, polls, retries, s).events;
      && Requests(t) == Repeat(Api.CheckStatusRequest(key), ChecksMade(polls, retries))
      && Checks(t) == ChecksMade(polls, retries)
      && Waits(t) == ChecksMade(polls, retries)
    decreases MaxRetries - retries
  {
    if retries == MaxRetries {
      SingleLog(StateSet(Settled(s, Api.Thrown(TimeoutMessage))));
    } else {
      var checking := s.(uploadProgress := CheckingLabel(retries + 1));
      PollUnfold(key, polls, retries, s);
      AttemptLog(checking, key);
      if polls[retries].Resolved? {
        var rest := [StateSet(Completed(checking, polls[retries].response.data))];
        SingleLog(rest[0]);
        LogAppend(Attempt(checking, key), rest);
      } else {
        PollLog(key, polls, retries + 1, checking);
        LogAppend(Attempt(checking, key), PollRun(key, polls, retries + 1, checking).events);
      }
    }
  }

  /**
   * The attempt made after `retries + k` failed checks takes the three
   * events of `t` from index `base + 3 * k` on: the wait, the state update
   * showing "Checking status... (retries + k + 1/20)", and the status check
   * for `key`.
   */
  ghost predicate AttemptAt(t: seq<Event>, base: nat, k: nat, key: string, retries: nat) {
    && base + 3 * k + 3 <= |t|
    && t[base + 3 * k] == Wait
    && t[base + 3 * k + 1].StateSet?
    && t[base + 3 * k + 1].state.uploadProgress == CheckingLabel(retries + k + 1)
    && t[base + 3 * k + 2] == Sent(Api.CheckStatusRequest(key))
  }

  /** Events in front of a log move its attempts along by their number. */
  lemma AttemptShift(a: seq<Event>, b: seq<Event>, base: nat, k: nat, key: string, retries: nat)
    requires AttemptAt(b, base, k, key, retries)
    ensures AttemptAt(a + b, |a| + base, k, key, retries)
  {
    var i := base + 3 * k;
    assert (a + b)[|a| + i] == b[i];
    assert (a + b)[|a| + i + 1] == b[i + 1];
    assert (a + b)[|a| + i + 2] == b[i + 2];
  }

  /** An attempt labelled for check `retries + 1` is that attempt. */
  lemma AttemptOpens(checking: UploadState, key: string, retries: nat)
    requires checking.uploadProgress == CheckingLabel(retries + 1)
    ensures AttemptAt(Attempt(checking, key), 0, 0, key, retries)
  {
    assert retries + 0 + 1 == retries + 1;
  }

  /** Events after a log leave its attempts where they are. */
  lemma AttemptPrefix(a: seq<Event>, b: seq<Event>, base: nat, k: nat, key: string, retries: nat)
    requires AttemptAt(a, base, k, key, retries)
    ensures AttemptAt(a + b, base, k, key, retries)
  {
    var i := base + 3 * k;
    assert (a + b)[i] == a[i] && (a + b)[i + 1] == a[i + 1] && (a + b)[i + 2] == a[i + 2];
  }

  /** The attempt after the first three events is the next one from the start. */
  lemma AttemptRenumber(t: seq<Event>, k: nat, key: string, retries: nat)
    requires AttemptAt(t, 3, k, key, retries + 1)
    ensures AttemptAt(t, 0, k + 1, key, retries)
  {
    assert 3 + 3 * k == 3 * (k + 1);
    assert (retries + 1) + k + 1 == retries + (k + 1) + 1;
  }

  /** One attempt in front of `n` attempts numbered on from the next check makes `n + 1` attempts. */
  lemma LayoutStep(attempt: seq<Event>, rest: seq<Event>, n: nat, key: string, retries: nat, next: nat)
    requires |attempt| == 3 && AttemptAt(attempt, 0, 0, key, retries) && next == retries + 1
    requires forall k | 0 <= k < n :: AttemptAt(rest, 0, k, key, next)
    ensures forall k | 0 <= k < n + 1 :: AttemptAt(attempt + rest, 0, k, key, retries)
  {
    forall k | 0 <= k < n + 1
      ensures AttemptAt(attempt + rest, 0, k, key, retries)
    {
      if k == 0 {
        AttemptPrefix(attempt, rest, 0, 0, key, retries);
      } else {
        AttemptShift(attempt, rest, 0, k - 1, key, retries + 1);
        AttemptRenumber(attempt + rest, k - 1, key, retries);
      }
    }
  }

  /**
   * The polling loop's log, laid out: one attempt of three events for each
   * check made, numbered on from `retries + 1`, then one last state update.
   */
  lemma {:induction false} PollLayout(key: string, polls: seq<Api.Transport<ConversionResult>>, retries: nat, s: UploadState)
    requires retries <= MaxRetries == |polls|
    ensures var t := PollRun(key, polls, retries, s).events;
      && |t| == 3 * ChecksMade(polls, retries) + 1
      && forall k | 0 <= k < ChecksMade(polls, retries) :: AttemptAt(t, 0, k, key, retries)
    decreases MaxRetries - retries
  {
    if retries < MaxRetries {
      var checking := s.(uploadProgress := CheckingLabel(retries + 1));
      var attempt := Attempt(checking, key);
      PollUnfold(key, polls, retries, s);
      AttemptOpens(checking, key, retries);
      if polls[retries].Resolved? {
        LayoutStep(attempt, [StateSet(Completed(checking, polls[retries].response.data))], 0, key, retries, retries + 1);
      } else {
        PollLayout(key, polls, retries + 1, checking);
        LayoutStep(attempt, PollRun(key, polls, retries + 1, checking).events, ChecksMade(polls, retries + 1), key, retries, retries + 1);
      }
    }
  }

  // ---------------------------------------------------------------------
  // Properties of a whole run

  /** State updates alone send nothing and wait for nothing. */
  lemma {:induction false} QuietLog(t: seq<Event>)
    requires forall i | 0 <= i < |t| :: t[i].StateSet?
    ensures Requests(t) == [] && Checks(t) == 0 && Waits(t) == 0
  {
    if t != [] {
      assert t[0].StateSet?;
      assert forall i | 0 <= i < |t[1..]| :: t[1..][i] == t[i + 1];
      QuietLog(t[1..]);
    }
  }

  /** Three state updates and one request that is not a status check. */
  lemma OpeningShape(t: seq<Event>, r: Api.Request)
    requires |t| == 4 && t[0].StateSet? && t[1].StateSet? && t[2].StateSet? && t[3] == Sent(r)
    requires r.verb != Api.Get
    ensures Requests(t) == [r] && Checks(t) == 0 && Waits(t) == 0
    ensures forall i | 0 <= i < |t| :: !IsStatusCheck(t[i])
  {
    QuietLog(t[..3]);
    SingleLog(t[3]);
    assert t == t[..3] + [t[3]];
    LogAppend(t[..3], [t[3]]);
  }

  lemma OpeningLog(file: File)
    ensures Requests(Opening(file)) == [Api.GetUploadUrlRequest(file.name)]
    ensures Checks(Opening(file)) == 0 && Waits(Opening(file)) == 0
    ensures forall i | 0 <= i < |Opening(file)| :: !IsStatusCheck(Opening(file)[i])
  {
    OpeningShape(Opening(file), Api.GetUploadUrlRequest(file.name));
  }

  /** A state update, one request that is not a status check, and another state update. */
  lemma TransferShape(t: seq<Event>, r: Api.Request)
    requires |t| == 3 && t[0].StateSet? && t[1] == Sent(r) && t[2].StateSet?
    requires r.verb != Api.Get
    ensures Requests(t) == [r] && Checks(t) == 0 && Waits(t) == 0
  {
    SingleLog(t[0]);
    SingleLog(t[1]);
    SingleLog(t[2]);
    assert t == [t[0]] + ([t[1]] + [t[2]]);
    LogAppend([t[1]], [t[2]]);
    LogAppend([t[0]], [t[1]] + [t[2]]);
  }

  /** The log of `TransferRun`: the PUT, then (if it succeeds) the polling loop's checks. */
  lemma TransferLog(file: File, uploadData: UploadResponse, transfer: Api.Transport<()>,
                    polls: seq<Api.Transport<ConversionResult>>)
    requires |polls| == MaxRetries
    ensures var t := TransferRun(file, uploadData, transfer, polls).events;
      var put := Api.UploadFileRequest(uploadData.uploadUrl, file);
      && (transfer.Rejected? ==> Requests(t) == [put] && Checks(t) == 0 && Waits(t) == 0)
      && (transfer.Resolved? ==>
            && Requests(t) == [put] + Repeat(Api.CheckStatusRequest(uploadData.fileName), ChecksMade(polls, 0))
            && Checks(t) == ChecksMade(polls, 0) && Waits(t) == ChecksMade(polls, 0))
  {
    var put := Api.UploadFileRequest(uploadData.uploadUrl, file);
    var transferring := [StateSet(Uploading), Sent(put)];
    if transfer.Rejected? {
      TransferShape(TransferRun(file, uploadData, transfer, polls).events, put);
    } else {
      var head := transferring + [StateSet(Processing)];
      TransferShape(head, put);
      PollLog(uploadData.fileName, polls, 0, Processing);
      LogAppend(head, PollRun(uploadData.fileName, polls, 0, Processing).events);
    }
  }

  /**
   * The phases run in order and none is repeated: one slot request for the
   * picked file's name; if it succeeds, one PUT to the returned upload URL;
   * if that succeeds, status checks keyed by the file name the server
   * returned (not the picked file's name), each after one wait, never more
   * than 20; a run that fails before polling waits for nothing.
   */
  lemma UploadEffects(file: File, slot: Api.Transport<UploadResponse>, transfer: Api.Transport<()>,
                      polls: seq<Api.Transport<ConversionResult>>)
    requires |polls| == MaxRetries
    ensures var t := UploadRun(file, slot, transfer, polls).events;
      && (slot.Rejected? ==> Requests(t) == [Api.GetUploadUrlRequest(file.name)])
      && (slot.Resolved? && transfer.Rejected? ==>
            Requests(t) == [Api.GetUploadUrlRequest(file.name),
                            Api.UploadFileRequest(slot.response.data.uploadUrl, file)])
      && (slot.Resolved? && transfer.Resolved? ==>
            Requests(t) == [Api.GetUploadUrlRequest(file.name),
                            Api.UploadFileRequest(slot.response.data.uploadUrl, file)]
                           + Repeat(Api.CheckStatusRequest(slot.response.data.fileName), ChecksMade(polls, 0)))
      && Checks(t) == Waits(t) == (if slot.Resolved? && transfer.Resolved? then ChecksMade(polls, 0) else 0)
      && Checks(t) <= MaxRetries
  {
    UploadRequests(file, slot, transfer, polls);
    UploadCounts(file, slot, transfer, polls);
  }

  /** A run's log splits into the events up to the slot request and the rest. */
  lemma UploadSplit(file: File, slot: Api.Transport<UploadResponse>, transfer: Api.Transport<()>,
                    polls: seq<Api.Transport<ConversionResult>>)
    requires |polls| == MaxRetries
    ensures var t := UploadRun(file, slot, transfer, polls).events;
      && (slot.Rejected? ==>
            t == Opening(file) + [StateSet(Settled(Requesting, Api.Mapped(Api.ToApiError(slot.error))))])
      && (slot.Resolved? ==> t == Opening(file) + TransferRun(file, slot.response.data, transfer, polls).events)
  {
  }

  lemma UploadRequests(file: File, slot: Api.Transport<UploadResponse>, transfer: Api.Transport<()>,
                       polls: seq<Api.Transport<ConversionResult>>)
    requires |polls| == MaxRetries
    ensures var t := UploadRun(file, slot, transfer, polls).events;
      && (slot.Rejected? ==> Requests(t) == [Api.GetUploadUrlRequest(file.name)])
      && (slot.Resolved? && transfer.Rejected? ==>
            Requests(t) == [Api.GetUploadUrlRequest(file.name),
                            Api.UploadFileRequest(slot.response.data.uploadUrl, file)])
      && (slot.Resolved? && transfer.Resolved? ==>
            Requests(t) == [Api.GetUploadUrlRequest(file.name),
                            Api.UploadFileRequest(slot.response.data.uploadUrl, file)]
                           + Repeat(Api.CheckStatusRequest(slot.response.data.fileName), ChecksMade(polls, 0)))
  {
    var slotRequest := Api.GetUploadUrlRequest(file.name);
    UploadSplit(file, slot, transfer, polls);
    if slot.Rejected? {
      var last := StateSet(Settled(Requesting, Api.Mapped(Api.ToApiError(slot.error))));
      SingleLog(last);
      OpenedRequests(file, [last]);
      assert [slotRequest] + [] == [slotRequest];
    } else {
      var uploadData := slot.response.data;
      TransferLog(file, uploadData, transfer, polls);
      OpenedRequests(file, TransferRun(file, uploadData, transfer, polls).events);
      if transfer.Resolved? {
        var put := Api.UploadFileRequest(uploadData.uploadUrl, file);
        AppendAssoc([slotRequest], [put], Repeat(Api.CheckStatusRequest(uploadData.fileName), ChecksMade(polls, 0)));
      }
    }
  }

  /** Whatever follows the opening events, the slot request comes first. */
  lemma OpenedRequests(file: File, rest: seq<Event>)
    ensures Requests(Opening(file) + rest) == [Api.GetUploadUrlRequest(file.name)] + Requests(rest)
  {
    OpeningLog(file);
    RequestsAppend(Opening(file), rest);
  }

  lemma UploadCounts(file: File, slot: Api.Transport<UploadResponse>, transfer: Api.Transport<()>,
                     polls: seq<Api.Transport<ConversionResult>>)
    requires |polls| == MaxRetries
    ensures var t := UploadRun(file, slot, transfer, polls).events;
      && Checks(t) == Waits(t) == (if slot.Resolved? && transfer.Resolved? then ChecksMade(polls, 0) else 0)
      && Checks(t) <= MaxRetries
  {
    UploadSplit(file, slot, transfer, polls);
    OpeningLog(file);
    if slot.Rejected? {
      var last := StateSet(Settled(Requesting, Api.Mapped(Api.ToApiError(slot.error))));
      SingleLog(last);
      ChecksAppend(Opening(file), [last]);
      WaitsAppend(Opening(file), [last]);
    } else {
      var rest := TransferRun(file, slot.response.data, transfer, polls).events;
      TransferLog(file, slot.response.data, transfer, polls);
      ChecksAppend(Opening(file), rest);
      WaitsAppend(Opening(file), rest);
    }
  }

  /**
   * Where a run's status checks sit in its log: after the four events up to
   * the slot request and the three of the transfer, attempt k + 1 takes
   * three events (the wait, the label "Checking status... (k + 1/20)", the
   * check keyed by the server's file name), and one state update ends the
   * log. With `UploadEffects` counting the checks, these are all of them.
   */
  lemma UploadLayout(file: File, slot: Api.Transport<UploadResponse>, transfer: Api.Transport<()>,
                     polls: seq<Api.Transport<ConversionResult>>)
    requires |polls| == MaxRetries && slot.Resolved? && transfer.Resolved?
    ensures var t := UploadRun(file, slot, transfer, polls).events;
      && |t| == 3 * ChecksMade(polls, 0) + 8
      && forall k | 0 <= k < ChecksMade(polls, 0) :: AttemptAt(t, 7, k, slot.response.data.fileName, 0)
  {
    var uploadData := slot.response.data;
    var key := uploadData.fileName;
    var head := [StateSet(Uploading), Sent(Api.UploadFileRequest(uploadData.uploadUrl, file))] + [StateSet(Processing)];
    var polling := PollRun(key, polls, 0, Processing).events;
    PollLayout(key, polls, 0, Processing);
    assert TransferRun(file, uploadData, transfer, polls).events == head + polling;
    assert UploadRun(file, slot, transfer, polls).events == Opening(file) + (head + polling);
    forall k | 0 <= k < ChecksMade(polls, 0)
      ensures AttemptAt(Opening(file) + (head + polling), 7, k, key, 0)
    {
      AttemptShift(head, polling, 0, k, key, 0);
      AttemptShift(Opening(file), head + polling, 3, k, key, 0);
    }
  }

  /**
   * A failed slot request is fatal and never retried: nothing else is
   * sent, and the error shown is the mapped rejection's message.
   */
  lemma SlotFailureIsFatal(file: File, slot: Api.Transport<UploadResponse>, transfer: Api.Transport<()>,
                           polls: seq<Api.Transport<ConversionResult>>)
    requires |polls| == MaxRetries && slot.Rejected?
    ensures var r := UploadRun(file, slot, transfer, polls);
      && r.outcome == Err(Api.Mapped(Api.ToApiError(slot.error)))
      && Requests(r.events) == [Api.GetUploadUrlRequest(file.name)]
      && Waits(r.events) == 0
      && r.final == UploadState(false, "", None, Some(Api.ToApiError(slot.error).message))
  {
    UploadEffects(file, slot, transfer, polls);
    UploadTerminal(file, slot, transfer, polls);
  }

  /**
   * A failed transfer is fatal and never retried. Its rejection bypasses
   * the interceptor, so the error shown is the transport's own message, or
   * the fallback when that is empty.
   */
  lemma TransferFailureIsFatal(file: File, slot: Api.Transport<UploadResponse>, transfer: Api.Transport<()>,
                               polls: seq<Api.Transport<ConversionResult>>)
    requires |polls| == MaxRetries && slot.Resolved? && transfer.Rejected?
    ensures var r := UploadRun(file, slot, transfer, polls);
      && r.outcome == Err(Api.Unmapped(transfer.error))
      && Requests(r.events) == [Api.GetUploadUrlRequest(file.name), Api.UploadFileRequest(slot.response.data.uploadUrl, file)]
      && Waits(r.events) == 0
      && r.final.error == Some(if transfer.error.message != "" then transfer.error.message else FallbackMessage)
      && r.final.downloadUrl.None? && !r.final.isUploading
  {
    UploadEffects(file, slot, transfer, polls);
    UploadTerminal(file, slot, transfer, polls);
  }

  lemma {:induction false} PollFirstSuccess(key: string, polls: seq<Api.Transport<ConversionResult>>, retries: nat, s: UploadState, j: nat)
    requires retries <= j < MaxRetries == |polls|
    requires polls[j].Resolved?
    requires forall i | retries <= i < j :: polls[i].Rejected?
    ensures PollRun(key, polls, retries, s).outcome == Ok(polls[j].response.data)
    ensures ChecksMade(polls, retries) == j + 1 - retries
    decreases j - retries
  {
    if retries < j {
      PollFirstSuccess(key, polls, retries + 1, s.(uploadProgress := CheckingLabel(retries + 1)), j);
    }
  }

  /** Once the slot and the PUT succeed, the call ends as polling from the "Processing..." state ends. */
  lemma UploadPolls(file: File, slot: Api.Transport<UploadResponse>, transfer: Api.Transport<()>,
                    polls: seq<Api.Transport<ConversionResult>>)
    requires |polls| == MaxRetries && slot.Resolved? && transfer.Resolved?
    ensures var r := UploadRun(file, slot, transfer, polls);
      var p := PollRun(slot.response.data.fileName, polls, 0, Processing);
      r.outcome == p.outcome && r.final == p.final
  {
  }

  lemma {:induction false} PollAllFail(key: string, polls: seq<Api.Transport<ConversionResult>>, retries: nat, s: UploadState)
    requires retries <= MaxRetries == |polls|
    requires forall i | retries <= i < MaxRetries :: polls[i].Rejected?
    ensures PollRun(key, polls, retries, s).outcome == Err(Api.Thrown(TimeoutMessage))
    ensures ChecksMade(polls, retries) == MaxRetries - retries
    decreases MaxRetries - retries
  {
    if retries < MaxRetries {
      PollAllFail(key, polls, retries + 1, s.(uploadProgress := CheckingLabel(retries + 1)));
    }
  }

  /**
   * The first answered status check ends polling: the run resolves with
   * that answer's body and shows its download URL, after exactly j + 1
   * checks.
   */
  lemma FirstSuccessEndsPolling(file: File, slot: Api.Transport<UploadResponse>, transfer: Api.Transport<()>,
                                polls: seq<Api.Transport<ConversionResult>>, j: nat)
    requires |polls| == MaxRetries && slot.Resolved? && transfer.Resolved?
    requires j < MaxRetries && polls[j].Resolved?
    requires forall i | 0 <= i < j :: polls[i].Rejected?
    ensures var r := UploadRun(file, slot, transfer, polls);
      && r.outcome == Ok(polls[j].response.data)
      && r.final == UploadState(false, CompleteLabel, Some(polls[j].response.data.downloadUrl), None)
      && Checks(r.events) == Waits(r.events) == j + 1
  {
    PollFirstSuccess(slot.response.data.fileName, polls, 0, Processing, j);
    UploadCounts(file, slot, transfer, polls);
    UploadTerminal(file, slot, transfer, polls);
  }

  /**
   * Twenty failed checks end the run with the fixed timeout message; no
   * download URL is shown and the call rejects.
   */
  lemma TimeoutAfterAllFailures(file: File, slot: Api.Transport<UploadResponse>, transfer: Api.Transport<()>,
                                polls: seq<Api.Transport<ConversionResult>>)
    requires |polls| == MaxRetries && slot.Resolved? && transfer.Resolved?
    requires forall i | 0 <= i < MaxRetries :: polls[i].Rejected?
    ensures var r := UploadRun(file, slot, transfer, polls);
      && r.outcome == Err(Api.Thrown(TimeoutMessage))
      && r.final == UploadState(false, "", None, Some(TimeoutMessage))
      && Checks(r.events) == Waits(r.events) == MaxRetries
  {
    PollAllFail(slot.response.data.fileName, polls, 0, Processing);
    PollTerminal(slot.response.data.fileName, polls, 0, Processing);
    UploadPolls(file, slot, transfer, polls);
    UploadCounts(file, slot, transfer, polls);
  }
}
