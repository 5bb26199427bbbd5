# Voting dashboard and relay — a Dafny model

The system is a small on-chain voting front end. A relay service
(`server/index.js`) reads a voting contract over JSON-RPC and prepares unsigned
vote transactions; a React dashboard (`client/src/App.jsx`) shows the proposal
tallies, exports them as CSV, and drives one vote attempt at a time through the
relay and a browser wallet. The voting rules themselves live in the contract
and are not part of this model.

This project models the logic the repository itself contains:

- `Relay` — the four HTTP handlers. The contract binding and RPC node are a
  `Contract` value whose fields are the answers to the calls the handlers make
  (`getProposals`, `voters(address)`, gas estimation, ABI encoding of
  `vote(id)`); each handler is a pure function from that value to a
  `Response` (200 with a body, or 500 with `{error}`).
- `Dashboard` — the projections of the proposal snapshot: CSV text, vote total,
  chart series. It also models `getRandomColor` (`Dashboard.PaletteColor`), a
  helper the component defines but never calls; the chart bars use a fixed fill.
- `VoteFlow` — the dashboard's UI state, the vote-button rule,
  `fetchProposals`, and `vote` as a function from a state and the
  collaborators' answers (`Outcomes`) to an `Attempt`: the final state, the
  effects issued (toasts, relay requests, wallet requests), the state at each
  `await`, and whether a rejection escapes the handler.
- `EndToEnd` — properties that hold when the relay's answers are what the
  dashboard reads.
- `Text` and `Wrappers` — substring search, decimal numerals, join/split, and
  the `Option`/`Result`/`JsError` values used throughout.

Everything that talks to the outside (HTTP, the wallet extension, the RPC node)
is a parameter: an `Outcomes` value for one vote attempt, a
`Contract` value for one relay request.

Behaviour of the code worth noting:

- A failure of the contract binding or of ABI encoding makes `/vote` answer
  500; only gas estimation failures are absorbed.
- `/votingStats` on an empty list answers `highestVote: null`. This is how JSON
  renders `Math.max()` of nothing.
- After a confirmed transaction the dashboard sets its voted flag directly. It
  does not re-query `/hasVoted`.
- A thrown value that has no 4001 code and no string message makes the catch
  block throw at `error.message.includes`. In that case no error modal is set
  and the rejection escapes. `finally` still clears `votingInProgress`.
  `Vote` states this case explicitly.

## Model

| member | source | states |
|---|---|---|
| Text.ContainsIffOccurs | client/src/App.jsx:146 | the substring test used for the double-vote heuristic holds exactly when the marker occurs at some index |
| Text.ParseDecimalOfDecimal | server/index.js:25 | the decimal string the relay emits for a count parses back (as the client's `parseInt` does) to that count |
| Text.DecimalOfParse | server/index.js:25 | every canonical numeral is the rendering of the number it denotes, so the count-to-string conversion is a bijection onto canonical numerals |
| Text.Decimal | server/index.js:25 | the `toString()` rendering of a count is a canonical numeral: digits only, with no leading zero except for "0" |
| Text.ParseDecimal | client/src/App.jsx:189 | `parseInt` of a count yields a number exactly when the string is a non-empty run of digits; otherwise NaN |
| Text.SplitJoin | client/src/App.jsx:167-168 | splitting the joined text on the separator gives back the rows when no row contains the separator |
| Relay.FormatProposals | server/index.js:23-26 | `/proposals` output has the contract list's length and order, the same names, and counts that are canonical decimals parsing back to the contract's counts |
| Relay.ListProposals | server/index.js:18-33 | `/proposals` answers 200 exactly when binding and the contract read succeed, with the formatted list (same length, order and names, decimal counts); otherwise 500 carrying the failing call's message |
| Relay.GasLimit | server/index.js:41-47 | the gas value is the literal "300000" when estimation throws, otherwise a numeral that parses to the estimate; always a canonical numeral |
| Relay.PrepareVote | server/index.js:35-60 | `/vote` succeeds exactly when binding and encoding succeed, independent of estimation; on success `to` is the configured address, `data` the encoded `vote(proposalId)`, `gas` the estimate or the fallback; otherwise 500 with the failing call's message |
| Relay.HasVoted | server/index.js:62-72 | `/hasVoted` answers 200 with the contract's flag for that address exactly when binding and the read succeed, otherwise 500 with the message |
| Relay.HighestVote | server/index.js:83-85 | the maximum is absent exactly for the empty list, is at least every count, and equals one of them |
| Relay.FirstWithCount | server/index.js:86-88 | `find` returns the lowest index holding the count, or nothing when no proposal holds it |
| Relay.ComputeStats | server/index.js:79-94 | `totalVotes` is the sum of counts; `highestVote` bounds every count and is attained; `leadingProposal` is null exactly for the empty list and otherwise names the lowest-index proposal with the highest count |
| Relay.VotingStats | server/index.js:74-99 | `/votingStats` answers 200 exactly when binding and the read succeed, with the statistics of the contract's list (sum, attained maximum, lowest-index leader); otherwise 500 with the message |
| Dashboard.CsvContent | client/src/App.jsx:160-168 | the export produces nothing exactly when the proposal list is empty |
| Dashboard.CsvContentIsHeaderThenRows | client/src/App.jsx:163-168 | the export is the header followed by one newline-led `name,voteCount` row per proposal in order, with no trailing newline |
| Dashboard.CsvExample | client/src/App.jsx:163-168 | proposals A (3) and B (5) export as `Proposal Name,Vote Count\nA,3\nB,5` |
| Dashboard.ParseRow | client/src/App.jsx:165-167 | a row read back at its last comma re-renders to the same line |
| Dashboard.CsvRoundTrip | client/src/App.jsx:163-168 | reading the export back recovers the snapshot when names hold no line break and counts no comma or line break |
| Dashboard.TotalVotes | client/src/App.jsx:187-192 | the total is a number exactly when every count parses, and then equals the sum of the parsed counts; any unreadable count makes it NaN |
| Dashboard.ChartData | client/src/App.jsx:194-199 | the chart keeps length, order and names, and a bar has a value exactly when its count is a digit string |
| Dashboard.PaletteColor | client/src/App.jsx:201-211 | the colour for any index lies within the six-colour palette |
| Dashboard.PaletteColorPeriodic | client/src/App.jsx:210 | colours repeat with period six |
| Dashboard.PaletteColorsDistinctInWindow | client/src/App.jsx:202-210 | six consecutive indices get six different colours |
| VoteFlow.VoteButtonEnabled | client/src/App.jsx:347 | a vote button is enabled exactly when an account is connected, it has not voted, and no vote is in progress |
| VoteFlow.FetchProposals | client/src/App.jsx:47-57 | a refresh replaces the list on success and keeps it (with an error toast) on failure, always clears loading, and changes nothing else |
| VoteFlow.Classify | client/src/App.jsx:143-153 | failures are classified in order: code 4001 is a user rejection; otherwise a message containing "already voted" is a double vote; a message-less error makes the catch block throw |
| VoteFlow.RejectionCodeTakesPrecedence | client/src/App.jsx:143-149 | code 4001 is a user rejection even when the message also reports a prior vote |
| VoteFlow.Caught | client/src/App.jsx:140-154 | the catch block keeps the list, account and in-progress flag; sets `hasVoted` only for the "already voted" case; shows an error modal with the rejected, already-voted or generic message per the classification; and changes nothing when the message-less error makes it throw |
| VoteFlow.MountedStateRefusesVotes | client/src/App.jsx:24-31 | in the state the component mounts with, every vote button is disabled and `vote` stops at the not-connected guard with the state unchanged |
| VoteFlow.Vote | client/src/App.jsx:100-158 | guards (account first, then voted flag) leave the state unchanged with no request; a guarded-through attempt always clears `votingInProgress` and shows the modal unless the catch throws; buttons are disabled at every await; at most one POST from the connected account; the wallet sends exactly the relay's transaction; success sets the flag, the refreshed list and the success message; failures keep the list and set the flag only for the "already voted" case |
| VoteFlow.EnabledButtonPassesGuards | client/src/App.jsx:101-109 | outside an attempt, a button is enabled exactly when `vote` gets past both guards: an enabled click never ends at a guard, a disabled one would end at a guard with the state unchanged |
| VoteFlow.NoSecondVoteAfterSuccess | client/src/App.jsx:106-109 | after a recorded vote a further attempt stops at the voted guard with no request |
| EndToEnd.Received | client/src/App.jsx:116-119 | the controller receives the relay's transaction exactly when the relay answered 200 |
| EndToEnd.DashboardTotalMatchesStats | client/src/App.jsx:187-192 | for any contract answer that succeeds, the dashboard's total over the `/proposals` list equals the `totalVotes` that `/votingStats` reports |
| EndToEnd.ChartShowsContractCounts | client/src/App.jsx:194-199 | each chart bar carries the contract's name and count at that index |
| EndToEnd.CsvRecoversContractList | client/src/App.jsx:160-168 | exporting the relayed list and reading it back gives the contract's names and counts when names hold no line break |
| EndToEnd.GasFallbackReachesWallet | server/index.js:41-55 | when estimation fails the wallet is still asked to send the relay's transaction, with gas limit "300000" |
| EndToEnd.RelayFailureShowsGenericError | client/src/App.jsx:150-153 | a relay 500 reaches the user as the generic error and never sets the voted flag |
| EndToEnd.BadResponseIsGeneric | client/src/App.jsx:146-152 | the HTTP-client rejection for a 500 is classified as a generic error |

## Left out

- Rendering: JSX layout, toasts and dialogs as widgets, the chart component. Toasts appear only as `Effect` values.
- Foreign calls become abstract outcome values: the HTTP client, the ethers provider, signer and receipt wait, the `window.ethereum` requests, and the web3 contract calls. ABI encoding is an arbitrary function `encodeVote`.
- EndToEnd.Received: the HTTP client's rejection for a 500 answer is taken to be code `"ERR_BAD_RESPONSE"` with message "Request failed with status code 500". This is library behaviour that is not part of this model.
- The Blob, URL and anchor mechanics of the download (client/src/App.jsx:170-180) and its success toast are I/O. So are Express setup, CORS, environment loading and `listen` (server/index.js:1-16, 101-102).
- Text.ParseDecimal: models `parseInt` only on plain digit strings. Whitespace, signs and digit prefixes are not modelled. The relay only emits canonical numerals, so the simplification is not reachable through the relay.
- JavaScript number precision: counts are unbounded naturals, so `parseInt` of counts beyond 2^53 is exact here.
- `Math.max()` of an empty list is modelled as `None`, which is the JSON `null` it serialises to.
- `account` is a string, and "not connected" is the empty string. An `undefined` account (from an empty account list) behaves the same under `!account`.
- Async interleaving, unbounded confirmation waits and several tabs are out of scope: each attempt is one sequential run. The states at each `await` are recorded so that the disabled-button rule can be stated.
- The mount effects, wallet connection and `checkVoterStatus` (client/src/App.jsx:36-98) are not part of this model.
- The `BigInt.prototype.toJSON` patch appears only as the decimal rendering of counts and gas.
- Dashboard.PaletteColor: takes the index as a natural number. Nothing calls the helper, and in JavaScript a negative or fractional index would yield `undefined`.
- Logging: every catch block in both files writes to `console.error`; the model does not record these log lines.
- CSV fields are not quoted or escaped. The round trip is therefore stated only for names without line breaks.
