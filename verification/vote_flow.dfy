/** The dashboard's vote controller (`vote` in client/src/App.jsx) as a
    function of the UI state and of the outcomes its collaborators return.
    One call is one attempt, run sequentially: the relay request, the wallet's
    sign-and-send, the wait for the receipt and the refresh of the proposal
    list are supplied as an `Outcomes` value instead of being awaited. */
module VoteFlow {
  import opened Wrappers
  import opened Text
  import opened Relay

  /** Modal and toast styling. The modal only ever uses Success and Error. */
  datatype Tone = Success | Warn | Error

  /** The component's state hooks (the toast ref aside). */
  datatype UiState = UiState(
    proposals: seq<ListedProposal>,
    loading: bool,
    account: string,
    hasVoted: bool,
    votingInProgress: bool,
    showModal: bool,
    modalMessage: string,
    modalType: Tone)

  /** The state the component mounts with. */
  const Initial: UiState := UiState([], true, "", false, false, false, "", Success)

  /** What an attempt asks of the outside world, in order. */
  datatype Effect =
    | Toast(tone: Tone, summary: string, detail: string)
    | PostVote(proposalId: int, fromAddress: string)              // POST /vote
    | SendTransaction(to: string, data: string, gasLimit: string) // wallet signs and broadcasts
    | AwaitReceipt                                                // tx.wait()
    | GetProposals                                                // GET /proposals

  /** The collaborators' answers for one attempt, in the order they are asked.
      `provider` is the outcome of wrapping the injected wallet object. */
  datatype Outcomes = Outcomes(
    provider: Result<(), JsError>,
    prepared: Result<PreparedTx, JsError>,
    sent: Result<(), JsError>,
    mined: Result<(), JsError>,
    refreshed: Result<seq<ListedProposal>, JsError>)

  /** The end of one call of `vote`: the final state, the effects issued, the
      state at each `await` (where the page re-renders and can be clicked),
      and whether a rejection escapes the handler. */
  datatype Attempt = Attempt(final: UiState, effects: seq<Effect>, suspended: seq<UiState>, escaped: bool)

  const UserRejectedCode: int := 4001
  const AlreadyVotedMarker: string := "already voted"
  const ProcessingMessage: string := "Your vote is being processed. Please wait for confirmation."
  const RecordedMessage: string := "Your vote has been successfully recorded!"
  const RejectedMessage: string := "Transaction was rejected by user."
  const AlreadyVotedMessage: string := "You have already voted on this proposal."
  const GenericMessage: string := "An error occurred while processing your vote."
  const NotConnectedToast: Effect := Toast(Warn, "Not Connected", "Please connect your wallet first")
  const AlreadyVotedToast: Effect := Toast(Warn, "Already Voted", "You have already cast your vote")
  const FetchFailedToast: Effect := Toast(Error, "Error", "Failed to fetch proposals")

  /** A wallet is connected when the account string is non-empty. */
  predicate Connected(s: UiState)
  {
    s.account != ""
  }

  /** The `disabled` expression of each proposal's vote button, negated. */
  function VoteButtonEnabled(s: UiState): (r: bool)
    ensures r <==> Connected(s) && !s.hasVoted && !s.votingInProgress
  {
    !(s.account == "" || s.hasVoted || s.votingInProgress)
  }

  // ---------------------------------------------------------------------------
  // fetchProposals

  /** One step of the controller: the state after it and the effects it issued. */
  datatype Step = Step(state: UiState, effects: seq<Effect>)

  /** `fetchProposals`: replaces the list on success, keeps it and shows an
      error toast on failure; never throws, always clears `loading`. */
  function FetchProposals(s: UiState, answer: Result<seq<ListedProposal>, JsError>): (r: Step)
    ensures r.state == s.(proposals := r.state.proposals, loading := false)
    ensures answer.Ok? ==> r.state.proposals == answer.value && r.effects == [GetProposals]
    ensures answer.Err? ==> r.state.proposals == s.proposals && r.effects == [GetProposals, FetchFailedToast]
  {
    match answer
    case Ok(ps) => Step(s.(proposals := ps, loading := false), [GetProposals])
    case Err(_) => Step(s.(loading := false), [GetProposals, FetchFailedToast])
  }

  // ---------------------------------------------------------------------------
  // Failure classification

  /** How the catch block reads an error. `Unreadable`: the code is not 4001
      and there is no message, so `error.message.includes` itself throws. */
  datatype Verdict = UserRejected | DoubleVote | Generic | Unreadable

  /** The catch block's tests, in source order: the wallet's rejection code
      first, then the "already voted" text, then anything else. */
  function Classify(e: JsError): (v: Verdict)
    ensures v == UserRejected <==> e.code == NumericCode(UserRejectedCode)
    ensures v == DoubleVote <==>
              e.code != NumericCode(UserRejectedCode) && e.message.Some?
              && exists i :: OccursAt(e.message.value, AlreadyVotedMarker, i)
    ensures v == Unreadable <==> e.code != NumericCode(UserRejectedCode) && e.message.None?
  {
    if e.code == NumericCode(UserRejectedCode) then UserRejected
    else match e.message
      case None => Unreadable
      case Some(m) =>
        ContainsIffOccurs(m, AlreadyVotedMarker);
        if Contains(m, AlreadyVotedMarker) then DoubleVote else Generic
  }

  /** The rejection code wins even when the message also reports a prior vote. */
  lemma RejectionCodeTakesPrecedence(m: string)
    ensures Classify(JsError(NumericCode(UserRejectedCode), Some(m))) == UserRejected
  {
  }

  /** The state after the catch block, and whether it throws. */
  function Caught(s: UiState, e: JsError): (r: Step)
    ensures r.effects == []
    ensures r.state.proposals == s.proposals && r.state.account == s.account
    ensures r.state.votingInProgress == s.votingInProgress
    ensures r.state.hasVoted <==> s.hasVoted || Classify(e) == DoubleVote
    ensures Classify(e) == Unreadable ==> r.state == s
    ensures Classify(e) != Unreadable ==> r.state.showModal && r.state.modalType == Error
    ensures Classify(e) == UserRejected ==> r.state.modalMessage == RejectedMessage
    ensures Classify(e) == DoubleVote ==> r.state.modalMessage == AlreadyVotedMessage
    ensures Classify(e) == Generic ==> r.state.modalMessage == GenericMessage
  {
    match Classify(e)
    case UserRejected => Step(s.(modalType := Error, modalMessage := RejectedMessage, showModal := true), [])
    case DoubleVote =>
      Step(s.(modalType := Error, modalMessage := AlreadyVotedMessage, hasVoted := true, showModal := true), [])
    case Generic => Step(s.(modalType := Error, modalMessage := GenericMessage, showModal := true), [])
    case Unreadable => Step(s, [])
  }

  function CaughtAttempt(s: UiState, effects: seq<Effect>, suspended: seq<UiState>, e: JsError): Attempt
  {
    Attempt(Caught(s, e).state, effects, suspended, Classify(e) == Unreadable)
  }

  // ---------------------------------------------------------------------------
  // vote

  /** The `try` block, entered with `votingInProgress` already set. */
  function TryVote(s: UiState, proposalId: int, o: Outcomes): (a: Attempt)
    ensures a.final.account == s.account && a.final.votingInProgress == s.votingInProgress
    ensures forall i :: 0 <= i < |a.suspended| ==>
              a.suspended[i].votingInProgress == s.votingInProgress
    ensures a.escaped <==> FirstError(o).Some? && Classify(FirstError(o).value) == Unreadable
    ensures !a.escaped && s.showModal ==> a.final.showModal
    ensures FirstError(o).Some? && Classify(FirstError(o).value) != Unreadable ==> a.final.showModal
    ensures forall i :: 0 <= i < |a.effects| && a.effects[i].PostVote? ==>
              a.effects[i] == PostVote(proposalId, s.account) && i == 0
    ensures o.provider.Ok? <==> |a.effects| > 0 && a.effects[0].PostVote?
    ensures forall i :: 0 <= i < |a.effects| && a.effects[i].SendTransaction? ==>
              o.prepared.Ok? && a.effects[i].to == o.prepared.value.to
              && a.effects[i].data == o.prepared.value.data && a.effects[i].gasLimit == o.prepared.value.gas
    ensures FirstError(o).None? ==>
              a.final.hasVoted && a.final.showModal
              && a.final.modalType == Success && a.final.modalMessage == RecordedMessage
              && a.final.proposals == (if o.refreshed.Ok? then o.refreshed.value else s.proposals)
    ensures FirstError(o).Some? ==>
              a.final.proposals == s.proposals
              && (a.final.hasVoted <==> s.hasVoted || Classify(FirstError(o).value) == DoubleVote)
              && (Classify(FirstError(o).value) == UserRejected ==>
                    a.final.modalType == Error && a.final.modalMessage == RejectedMessage)
              && (Classify(FirstError(o).value) == DoubleVote ==>
                    a.final.modalType == Error && a.final.modalMessage == AlreadyVotedMessage)
              && (Classify(FirstError(o).value) == Generic ==>
                    a.final.modalType == Error && a.final.modalMessage == GenericMessage)
  {
    if o.provider.Err? then CaughtAttempt(s, [], [], o.provider.error)
    else
      var posted := [PostVote(proposalId, s.account)];
      match o.prepared
      case Err(e) => CaughtAttempt(s, posted, [s], e)
      case Ok(tx) =>
        var sent := posted + [SendTransaction(tx.to, tx.data, tx.gas)];
        if o.sent.Err? then CaughtAttempt(s, sent, [s, s], o.sent.error)
        else
          var pending := s.(modalType := Success, modalMessage := ProcessingMessage, showModal := true);
          var waited := sent + [AwaitReceipt];
          if o.mined.Err? then CaughtAttempt(pending, waited, [s, s, pending], o.mined.error)
          else
            var mined := pending.(hasVoted := true);
            var refreshed := FetchProposals(mined, o.refreshed);
            var done := refreshed.state.(modalType := Success, modalMessage := RecordedMessage, showModal := true);
            Attempt(done, waited + refreshed.effects, [s, s, pending, mined], false)
  }

  /** The first collaborator error of an attempt, if any; the refresh cannot
      fail the attempt because `fetchProposals` catches its own errors. */
  function FirstError(o: Outcomes): Option<JsError>
  {
    if o.provider.Err? then Some(o.provider.error)
    else if o.prepared.Err? then Some(o.prepared.error)
    else if o.sent.Err? then Some(o.sent.error)
    else if o.mined.Err? then Some(o.mined.error)
    else None
  }

  /** `vote(proposalId)`: two guards, then the attempt, then the `finally`
      that clears `votingInProgress`. */
  function Vote(s: UiState, proposalId: int, o: Outcomes): (a: Attempt)
    // not connected: nothing changes, no request, only a warning toast
    ensures !Connected(s) ==> a == Attempt(s, [NotConnectedToast], [], false)
    // connected but already voted: likewise; the account guard comes first
    ensures Connected(s) && s.hasVoted ==> a == Attempt(s, [AlreadyVotedToast], [], false)
    // an attempt that passes the guards always ends with the flag cleared,
    // keeps the account, and shows the modal unless the catch block threw
    ensures Connected(s) && !s.hasVoted ==>
              !a.final.votingInProgress && a.final.account == s.account
              && (a.escaped <==> FirstError(o).Some? && Classify(FirstError(o).value) == Unreadable)
              && (!a.escaped ==> a.final.showModal)
    // while it is in flight every vote button is disabled
    ensures forall i :: 0 <= i < |a.suspended| ==>
              a.suspended[i].votingInProgress && !VoteButtonEnabled(a.suspended[i])
    // at most one POST /vote per attempt, made iff the guards pass and the
    // wallet provider could be built, always from the connected account
    ensures forall i :: 0 <= i < |a.effects| && a.effects[i].PostVote? ==>
              a.effects[i] == PostVote(proposalId, s.account) && i == 0
    ensures (exists i :: 0 <= i < |a.effects| && a.effects[i].PostVote?) <==>
              Connected(s) && !s.hasVoted && o.provider.Ok?
    // the wallet is asked to send exactly what the relay prepared
    ensures forall i :: 0 <= i < |a.effects| && a.effects[i].SendTransaction? ==>
              o.prepared.Ok? && a.effects[i].to == o.prepared.value.to
              && a.effects[i].data == o.prepared.value.data && a.effects[i].gasLimit == o.prepared.value.gas
    // success: voted, refreshed list (if the refresh answered), success modal
    ensures Connected(s) && !s.hasVoted && FirstError(o).None? ==>
              a.final.hasVoted && !a.escaped
              && a.final.modalType == Success && a.final.modalMessage == RecordedMessage
              && a.final.proposals == (if o.refreshed.Ok? then o.refreshed.value else s.proposals)
    // failure: classified in order; only the "already voted" case sets the flag
    ensures Connected(s) && !s.hasVoted && FirstError(o).Some? ==>
              a.final.proposals == s.proposals
              && (a.final.hasVoted <==> Classify(FirstError(o).value) == DoubleVote)
              && (Classify(FirstError(o).value) == UserRejected ==>
                    a.final.modalType == Error && a.final.modalMessage == RejectedMessage)
              && (Classify(FirstError(o).value) == DoubleVote ==>
                    a.final.modalType == Error && a.final.modalMessage == AlreadyVotedMessage)
              && (Classify(FirstError(o).value) == Generic ==>
                    a.final.modalType == Error && a.final.modalMessage == GenericMessage)
  {
    if s.account == "" then Attempt(s, [NotConnectedToast], [], false)
    else if s.hasVoted then Attempt(s, [AlreadyVotedToast], [], false)
    else
      var a := TryVote(s.(votingInProgress := true), proposalId, o);
      a.(final := a.final.(votingInProgress := false))
  }

  /** Outside an attempt, the button is enabled exactly when `vote` would
      get past both guards: clicking it always starts a real attempt, and the
      cases it hides are exactly those the guards turn away. */
  lemma EnabledButtonPassesGuards(s: UiState, proposalId: int, o: Outcomes)
    requires !s.votingInProgress
    ensures VoteButtonEnabled(s) ==>
              Vote(s, proposalId, o).effects != [NotConnectedToast]
              && Vote(s, proposalId, o).effects != [AlreadyVotedToast]
    ensures !VoteButtonEnabled(s) ==>
              Vote(s, proposalId, o).final == s
              && Vote(s, proposalId, o).effects in {[NotConnectedToast], [AlreadyVotedToast]}
  {
  }

  /** In the state the component mounts with, no vote can start: `vote`
      stops at the first guard. While `loading` is true the page shows only
      the spinner, so no vote button is rendered; the disabled rule is stated
      for completeness and would refuse it as well. */
  lemma MountedStateRefusesVotes(proposalId: int, o: Outcomes)
    ensures !VoteButtonEnabled(Initial)
    ensures Vote(Initial, proposalId, o) == Attempt(Initial, [NotConnectedToast], [], false)
  {
  }

  /** Once an attempt has recorded a vote, a further attempt in the same
      session is refused by the second guard without any request. */
  lemma NoSecondVoteAfterSuccess(s: UiState, p: int, o: Outcomes, q: int, o': Outcomes)
    requires Connected(s) && !s.hasVoted && FirstError(o).None?
    ensures var next := Vote(Vote(s, p, o).final, q, o');
            next.final == Vote(s, p, o).final && next.effects == [AlreadyVotedToast]
  {
  }
}
