/** The relay service of server/index.js: four stateless HTTP handlers, each of
    which binds the voting contract afresh, makes one read or one
    write-preparation call, and reshapes the answer as JSON. The contract and
    the RPC node are a `Contract` value whose fields are the outcomes of the
    calls the handlers make; nothing is fetched. */
module Relay {
  import opened Wrappers
  import opened Text

  /** A proposal as the contract's `getProposals()` returns it. */
  datatype Proposal = Proposal(name: string, voteCount: nat)

  /** A proposal as `/proposals` sends it: the count as a decimal string. */
  datatype ListedProposal = ListedProposal(name: string, voteCount: string)

  /** The unsigned transaction `/vote` prepares for the wallet to sign. */
  datatype PreparedTx = PreparedTx(to: string, data: string, gas: string)

  /** The body of `/votingStats`. `highestVote` is None when JSON renders
      `Math.max()` of no arguments (negative infinity) as `null`. */
  datatype Stats = Stats(totalVotes: nat, highestVote: Option<nat>, leadingProposal: Option<string>)

  /** An HTTP answer: status 200 with a body, or status 500 with
      `{error: message}`; a missing message leaves the body `{}`. */
  datatype Response<+T> = Ok200(body: T) | Error500(error: Option<string>)

  /** What the contract binding answers. `binding` is the outcome of
      `new web3.eth.Contract(abi, address)`; the function fields are the calls
      keyed by their arguments. `encodeVote` stands for the ABI encoder of
      `vote(proposalId)`, which is not modelled. */
  datatype Contract = Contract(
    address: string,
    binding: Result<(), JsError>,
    getProposals: Result<seq<Proposal>, JsError>,
    voters: string -> Result<bool, JsError>,
    estimateVote: (int, string) -> Result<nat, JsError>,
    encodeVote: int -> Result<string, JsError>)

  /** The gas limit sent when estimation fails. */
  const FallbackGas: string := "300000"

  /** The catch block shared by every handler. */
  function Failed<T>(e: JsError): Response<T>
  {
    Error500(e.message)
  }

  // ---------------------------------------------------------------------------
  // GET /proposals

  /** The `map` of the `/proposals` handler: names kept, counts rendered by
      `toString()`. Each count reads back as the original with `parseInt`. */
  function FormatProposals(ps: seq<Proposal>): (r: seq<ListedProposal>)
    ensures |r| == |ps|
    ensures forall i :: 0 <= i < |ps| ==> r[i].name == ps[i].name
    ensures forall i :: 0 <= i < |ps| ==> IsCanonicalDecimal(r[i].voteCount)
    ensures forall i :: 0 <= i < |ps| ==> ParseDecimal(r[i].voteCount) == Some(ps[i].voteCount)
  {
    assert forall i :: 0 <= i < |ps| ==> ParseDecimal(Decimal(ps[i].voteCount)) == Some(ps[i].voteCount) by {
      forall i | 0 <= i < |ps| {
        ParseDecimalOfDecimal(ps[i].voteCount);
      }
    }
    seq(|ps|, i requires 0 <= i < |ps| => ListedProposal(ps[i].name, Decimal(ps[i].voteCount)))
  }

  function ListProposals(c: Contract): (r: Response<seq<ListedProposal>>)
    ensures r.Ok200? <==> c.binding.Ok? && c.getProposals.Ok?
    ensures r.Ok200? ==> r.body == FormatProposals(c.getProposals.value)
    ensures c.binding.Err? ==> r == Error500(c.binding.error.message)
    ensures c.binding.Ok? && c.getProposals.Err? ==> r == Error500(c.getProposals.error.message)
  {
    if c.binding.Err? then Failed(c.binding.error)
    else match c.getProposals
      case Err(e) => Failed(e)
      case Ok(ps) => Ok200(FormatProposals(ps))
  }

  // ---------------------------------------------------------------------------
  // POST /vote

  /** The `gas` field: the estimate's decimal form, or the fallback when the
      estimate threw. Always a numeral the wallet can parse. */
  function GasLimit(estimate: Result<nat, JsError>): (gas: string)
    ensures IsCanonicalDecimal(gas)
    ensures estimate.Err? ==> gas == FallbackGas
    ensures estimate.Ok? ==> ParseDecimal(gas) == Some(estimate.value)
  {
    match estimate
    case Err(_) => FallbackGas
    case Ok(g) => ParseDecimalOfDecimal(g); Decimal(g)
  }

  /** The `/vote` handler. The estimate is made first and its failure is
      swallowed; only a failing binding or encoder yields a 500. */
  function PrepareVote(c: Contract, proposalId: int, fromAddress: string): (r: Response<PreparedTx>)
    ensures r.Ok200? <==> c.binding.Ok? && c.encodeVote(proposalId).Ok?
    ensures r.Ok200? ==> r.body.to == c.address && r.body.data == c.encodeVote(proposalId).value
    ensures r.Ok200? ==> IsCanonicalDecimal(r.body.gas)
    ensures r.Ok200? && c.estimateVote(proposalId, fromAddress).Err? ==> r.body.gas == FallbackGas
    ensures r.Ok200? && c.estimateVote(proposalId, fromAddress).Ok? ==>
              ParseDecimal(r.body.gas) == Some(c.estimateVote(proposalId, fromAddress).value)
    ensures c.binding.Err? ==> r == Error500(c.binding.error.message)
    ensures c.binding.Ok? && c.encodeVote(proposalId).Err? ==> r == Error500(c.encodeVote(proposalId).error.message)
  {
    if c.binding.Err? then Failed(c.binding.error)
    else
      var gas := GasLimit(c.estimateVote(proposalId, fromAddress));
      match c.encodeVote(proposalId)
      case Err(e) => Failed(e)
      case Ok(data) => Ok200(PreparedTx(c.address, data, gas))
  }

  // ---------------------------------------------------------------------------
  // GET /hasVoted/:address

  function HasVoted(c: Contract, address: string): (r: Response<bool>)
    ensures r.Ok200? <==> c.binding.Ok? && c.voters(address).Ok?
    ensures r.Ok200? ==> r.body == c.voters(address).value
    ensures c.binding.Err? ==> r == Error500(c.binding.error.message)
    ensures c.binding.Ok? && c.voters(address).Err? ==> r == Error500(c.voters(address).error.message)
  {
    if c.binding.Err? then Failed(c.binding.error)
    else match c.voters(address)
      case Err(e) => Failed(e)
      case Ok(v) => Ok200(v)
  }

  // ---------------------------------------------------------------------------
  // GET /votingStats

  /** Reference sum of the counts. */
  function SumVotes(ps: seq<Proposal>): nat
  {
    if |ps| == 0 then 0 else ps[0].voteCount + SumVotes(ps[1..])
  }

  /** `Math.max(...counts)`, with None for an empty list. */
  function HighestVote(ps: seq<Proposal>): (r: Option<nat>)
    ensures r.None? <==> |ps| == 0
    ensures r.Some? ==> forall i :: 0 <= i < |ps| ==> ps[i].voteCount <= r.value
    ensures r.Some? ==> exists i :: 0 <= i < |ps| && ps[i].voteCount == r.value
  {
    if |ps| == 0 then None
    else match HighestVote(ps[1..])
      case None => Some(ps[0].voteCount)
      case Some(m) =>
        assert forall i :: 1 <= i < |ps| ==> ps[i] == ps[1..][i - 1];
        Some(if ps[0].voteCount >= m then ps[0].voteCount else m)
  }

  /** `find`: the index of the first proposal with count `h`. */
  function FirstWithCount(ps: seq<Proposal>, h: nat): (r: Option<nat>)
    ensures r.None? <==> forall i :: 0 <= i < |ps| ==> ps[i].voteCount != h
    ensures r.Some? ==> r.value < |ps| && ps[r.value].voteCount == h
    ensures r.Some? ==> forall j :: 0 <= j < r.value ==> ps[j].voteCount != h
  {
    if |ps| == 0 then None
    else if ps[0].voteCount == h then Some(0)
    else match FirstWithCount(ps[1..], h)
      case None =>
        assert forall i :: 1 <= i < |ps| ==> ps[i] == ps[1..][i - 1];
        None
      case Some(k) => Some(k + 1)
  }

  /** The three figures `/votingStats` reports. */
  function ComputeStats(ps: seq<Proposal>): (r: Stats)
    ensures r.totalVotes == SumVotes(ps)
    ensures r.highestVote.None? <==> |ps| == 0
    ensures r.leadingProposal.None? <==> |ps| == 0
    ensures r.highestVote.Some? ==>
              (forall i :: 0 <= i < |ps| ==> ps[i].voteCount <= r.highestVote.value) &&
              (exists i :: 0 <= i < |ps| && ps[i].voteCount == r.highestVote.value)
    ensures r.leadingProposal.Some? ==>
              exists i :: 0 <= i < |ps| && ps[i].name == r.leadingProposal.value
                          && ps[i].voteCount == r.highestVote.value
                          && forall j :: 0 <= j < i ==> ps[j].voteCount < ps[i].voteCount
  {
    var highest := HighestVote(ps);
    var leading :=
      match highest
      case None => None
      case Some(h) =>
        match FirstWithCount(ps, h)
        case None => None
        case Some(i) => Some(ps[i].name);
    Stats(SumVotes(ps), highest, leading)
  }

  function VotingStats(c: Contract): (r: Response<Stats>)
    ensures r.Ok200? <==> c.binding.Ok? && c.getProposals.Ok?
    ensures r.Ok200? ==> r.body == ComputeStats(c.getProposals.value)
    ensures c.binding.Err? ==> r == Error500(c.binding.error.message)
    ensures c.binding.Ok? && c.getProposals.Err? ==> r == Error500(c.getProposals.error.message)
  {
    if c.binding.Err? then Failed(c.binding.error)
    else match c.getProposals
      case Err(e) => Failed(e)
      case Ok(ps) => Ok200(ComputeStats(ps))
  }
}
