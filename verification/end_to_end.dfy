/** How the relay's answers reach the dashboard: the client reads the
    `/proposals` list and the `/vote` transaction the relay produced, so
    properties of the two halves compose. */
module EndToEnd {
  import opened Wrappers
  import opened Text
  import opened Relay
  import opened Dashboard
  import opened VoteFlow

  /** The rejection axios raises for a status-500 answer: its message names
      the status only, the relay's `{error}` body is not part of it. */
  const BadResponse: JsError := JsError(TextCode("ERR_BAD_RESPONSE"), Some("Request failed with status code 500"))

  /** What the vote controller receives from `axios.post(/vote)`. */
  function Received(r: Response<PreparedTx>): (o: Result<PreparedTx, JsError>)
    ensures o.Ok? <==> r.Ok200?
    ensures r.Ok200? ==> o.value == r.body
  {
    match r
    case Ok200(tx) => Ok(tx)
    case Error500(_) => Err(BadResponse)
  }

  /** The dashboard's total over the relayed list is the sum of the
      contract's counts, which is the `totalVotes` that `/votingStats`
      reports for the same contract answer (`Relay.VotingStats`). */
  lemma DashboardTotalMatchesStats(c: Contract)
    requires c.binding.Ok? && c.getProposals.Ok?
    ensures ListProposals(c).Ok200? && VotingStats(c).Ok200?
    ensures TotalVotes(ListProposals(c).body) == Some(VotingStats(c).body.totalVotes)
  {
    CountSumOfFormatted(c.getProposals.value);
  }

  lemma {:induction false} CountSumOfFormatted(ps: seq<Proposal>)
    ensures AllCountsParse(FormatProposals(ps))
    ensures CountSum(FormatProposals(ps)) == SumVotes(ps)
    decreases |ps|
  {
    if |ps| > 0 {
      FormatTail(ps);
      CountSumOfFormatted(ps[1..]);
    }
  }

  lemma FormatTail(ps: seq<Proposal>)
    requires |ps| > 0
    ensures FormatProposals(ps)[1..] == FormatProposals(ps[1..])
  {
  }

  /** Each chart bar carries the contract's name and count for that index. */
  lemma ChartShowsContractCounts(ps: seq<Proposal>)
    ensures |ChartData(FormatProposals(ps))| == |ps|
    ensures forall i :: 0 <= i < |ps| ==>
              ChartData(FormatProposals(ps))[i] == ChartPoint(ps[i].name, Some(ps[i].voteCount))
  {
  }

  /** Exporting the relayed list and reading the file back gives, row by
      row, the contract's names and counts, provided no name holds a line break. */
  lemma CsvRecoversContractList(ps: seq<Proposal>)
    requires |ps| > 0
    requires forall i :: 0 <= i < |ps| ==> '\n' !in ps[i].name
    ensures var parsed := ParseCsv(CsvContent(FormatProposals(ps)).value);
            parsed.Some? && |parsed.value| == |ps|
            && forall i :: 0 <= i < |ps| ==>
                 parsed.value[i].name == ps[i].name && ParseDecimal(parsed.value[i].voteCount) == Some(ps[i].voteCount)
  {
    var ls := FormatProposals(ps);
    forall i | 0 <= i < |ls|
      ensures '\n' !in ls[i].voteCount && ',' !in ls[i].voteCount
    {
      assert AllDigits(ls[i].voteCount);
    }
    CsvRoundTrip(ls);
  }

  /** `/vote` answers even when gas estimation throws, and the wallet is then
      asked to send the relay's transaction with the fallback gas limit. */
  lemma GasFallbackReachesWallet(s: UiState, c: Contract, proposalId: int, o: Outcomes)
    requires Connected(s) && !s.hasVoted
    requires c.binding.Ok? && c.encodeVote(proposalId).Ok?
    requires c.estimateVote(proposalId, s.account).Err?
    requires o.provider.Ok? && o.prepared == Received(PrepareVote(c, proposalId, s.account))
    ensures SendTransaction(c.address, c.encodeVote(proposalId).value, FallbackGas) in Vote(s, proposalId, o).effects
  {
  }

  /** A relay failure reaches the user as the generic error, whatever the
      upstream message said: the flag is not set from it. */
  lemma RelayFailureShowsGenericError(s: UiState, c: Contract, proposalId: int, o: Outcomes)
    requires Connected(s) && !s.hasVoted
    requires PrepareVote(c, proposalId, s.account).Error500?
    requires o.provider.Ok? && o.prepared == Received(PrepareVote(c, proposalId, s.account))
    ensures Vote(s, proposalId, o).final.modalMessage == GenericMessage
    ensures !Vote(s, proposalId, o).final.hasVoted
  {
    BadResponseIsGeneric();
  }

  /** The axios message does not contain the double-vote marker. */
  lemma BadResponseIsGeneric()
    ensures Classify(BadResponse) == Generic
  {
    var m := BadResponse.message.value;
    assert forall k :: 0 <= k < |m| ==> m[k] != 'y';
    WithoutLetterIsGeneric(BadResponse);
  }

  /** A message without the letter 'y' cannot contain "already voted". */
  lemma WithoutLetterIsGeneric(e: JsError)
    requires e.code != NumericCode(UserRejectedCode) && e.message.Some?
    requires forall k :: 0 <= k < |e.message.value| ==> e.message.value[k] != 'y'
    ensures Classify(e) == Generic
  {
    var m := e.message.value;
    forall i | OccursAt(m, AlreadyVotedMarker, i)
      ensures m[i + 6] == 'y'
    {
      assert m[i..i + |AlreadyVotedMarker|][6] == m[i + 6];
    }
  }
}
