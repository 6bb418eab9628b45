# P2P bank node — a verified model of its request handling

The node is one bank in a peer-to-peer network of banks. Clients and other
nodes send it one text line per request, such as `AD 12345/10.0.0.5 300`,
and get one line back, such as `AD` or `ER Account does not exist.`.

The model covers five parts of the node:

- **the ledger** (`BankEngine`): a map from account ids to balances, changed in place. It has:
  - account creation with a fresh five-digit id;
  - deposit, withdrawal and removal, each with its failure cases;
  - balance, total-funds and client-count queries.
  Every successful change is handed to storage and announced to the attached observers.
- **the request parser** (`CommandFactory`): turns a line into a command. It decides between executing here and forwarding to the node that the `account/ip` argument names.
- **the command executors** (`BaseCommands`): run a command against the ledger and format the response line.
- **the robbery planner** (`RobberyCommand`): asks nodes for their funds and client counts, ranks them by funds, and takes nodes until a target sum is reached.
- **the message table** (`Localization`): English and Czech texts with a language toggle. It supplies the ledger's error messages.

Files:

| file | module | what it holds |
|---|---|---|
| `wrappers.dfy` | `Wrappers` | `Option` and `Result` (a `Failure` stands for a thrown exception) |
| `text.dfy` | `Text` | the .NET string and number behaviour the parser relies on: `Trim`, `Split`, `Join`, `ToUpper`, `StartsWith`, `int.Parse`/`long.Parse`/`long.TryParse`, `ToString()` and the exception messages |
| `app_config.dfy` | `AppConfig` | the node's address and port |
| `network.dfy` | `Network` | the outbound client, as a function from (ip, port, line) to the reply line |
| `localization.dfy` | `Localization` | the two tables; `Localizer` with `Get` and `ToggleLanguage` |
| `ledger.dfy` | `Ledger` | the ledger rules as functions on the account map, and lemmas about them |
| `bank_engine.dfy` | `Bank` | class `BankEngine`, whose methods are proved against `Ledger` |
| `robbery_command.dfy` | `RobberyCommand` | target parsing, reply parsing, the query loop, the stable sort and the greedy selection |
| `command_factory.dfy` | `CommandFactory` | `Parse` and `HandleTransaction`, and their routing and error lemmas |
| `base_commands.dfy` | `BaseCommands` | the reply formats, `Execute` for every command, and line-to-response handling |

Storage and observers are recorded rather than performed:
- `BankEngine.saves` lists every map handed to `IStorage.Save`;
- `BankEngine.updates` lists every `IBankObserver.Update` call, oldest first.

So "a failed call saves nothing" is an equation on `saves`.

Balances are mathematical integers, as is every other number in the model. Where the source's 64-bit arithmetic behaves differently, the model shows it: see Findings and Left out.

Where the project's design description and the code disagree, the model follows the code:
- The planner ranks nodes by raw funds, not by funds per client.
- The planner asks only two nodes (its own address and `127.0.0.1`), not a subnet.
- The planner does not skip nodes that report no funds.
- `Withdraw` accepts a negative amount, which raises the balance.
- `Load` never reads the CSV fallback file that `Save` may write.
- The parser reads the node address as `AppConfig.Settings.IpAddress`, while `AppConfig.cs` declares `AppConfig.IpAddress`. The model treats both as the one configured address `cfg.ipAddress`. The port is treated the same way.

## Model

Source paths are relative to the repository root.

| member | source | states |
|---|---|---|
| Localization.Localizer.constructor | P2P_projekt/Core/Localization.cs:13 | the current language starts as "EN" |
| Localization.EnglishDiffersFromKeys | P2P_projekt/Core/Localization.cs:17-32 | no English text equals its own key |
| Localization.CzechDiffersFromKeys | P2P_projekt/Core/Localization.cs:33-48 | no Czech text equals its own key |
| Localization.Localizer.Get | P2P_projekt/Core/Localization.cs:56-63 | the table entry when both the current language and the key exist, otherwise the key itself; the result equals the key exactly when there is no entry |
| Localization.Localizer.ToggleLanguage | P2P_projekt/Core/Localization.cs:68-71 | "EN" becomes "CZ" and every other value becomes "EN" |
| Localization.ToggleTwiceRestores | P2P_projekt/Core/Localization.cs:70 | from "EN" or "CZ", toggling changes the language and toggling twice restores it |
| Localization.ToggleSelectsTable | P2P_projekt/Core/Localization.cs:70 | after a toggle the language always has a table, whatever it was before |
| Localization.TablesHaveSameKeys | P2P_projekt/Core/Localization.cs:15-49 | both tables define the same keys, so a key has an entry in one language exactly when it has one in the other |
| Bank.LedgerMessagesTranslated | P2P_projekt/Core/Localization.cs:25-29 | the four ledger error keys are defined in both tables, and their texts differ from the keys, so `Get` never falls back for them |
| Ledger.TotalFunds | P2P_projekt/Core/BankEngine.cs:173 | the sum of all balances; specified by TotalFundsPick, TotalFundsNonNegative, and the GetTotalFunds loop proved equal to it |
| Ledger.Deposit | P2P_projekt/Core/BankEngine.cs:108-111 | the deposit rule, with its two checks in source order; specified by DepositOutcome and DepositEffect |
| Ledger.Withdraw | P2P_projekt/Core/BankEngine.cs:127-130 | the withdrawal rule, with its two checks in source order; specified by WithdrawOutcome and WithdrawEffect |
| Ledger.Balance | P2P_projekt/Core/BankEngine.cs:146-147 | the balance query; specified by DepositThenBalance and WithdrawThenBalance, and by BankEngine.GetBalance |
| Ledger.Remove | P2P_projekt/Core/BankEngine.cs:160-163 | the removal rule; specified by RemoveOutcome and OperationsKeepNonNegative |
| Ledger.CreateAddsEmptyAccount | P2P_projekt/Core/BankEngine.cs:86-90 | inserting an unused id with balance 0 adds exactly that key, keeps every other entry, raises the count by one, keeps the total and keeps balances non-negative |
| Ledger.DepositOutcome | P2P_projekt/Core/BankEngine.cs:108-109 | a deposit succeeds iff the account exists and the amount is not negative; a missing account fails with AccountMissing whatever the amount (that check comes first), and a negative amount fails with NegativeAmount |
| Ledger.DepositEffect | P2P_projekt/Core/BankEngine.cs:111 | a successful deposit keeps the key set, sets that balance to old + amount, leaves every other balance alone and raises the total by exactly the amount |
| Ledger.WithdrawOutcome | P2P_projekt/Core/BankEngine.cs:127-128 | a withdrawal succeeds iff the account exists and its balance is at least the amount, a negative amount included; otherwise it fails with AccountMissing, then InsufficientFunds |
| Ledger.WithdrawEffect | P2P_projekt/Core/BankEngine.cs:127-130 | a successful withdrawal keeps the key set, sets that balance to old − amount, which is not negative, leaves every other balance alone and lowers the total by exactly the amount |
| Ledger.RemoveOutcome | P2P_projekt/Core/BankEngine.cs:160-163 | removal succeeds iff the account exists with balance 0; it then removes exactly that key, the count drops by one and the total is unchanged; a failure on an existing account is always NotEmpty |
| Ledger.DepositThenBalance | P2P_projekt/Core/BankEngine.cs:104-149 | a balance query after a successful deposit reports the old balance plus the amount |
| Ledger.WithdrawThenBalance | P2P_projekt/Core/BankEngine.cs:123-149 | a balance query after a successful withdrawal reports the old balance minus the amount |
| Ledger.OperationsKeepNonNegative | P2P_projekt/Core/BankEngine.cs:82-167 | create, deposit, withdraw and remove each keep every balance non-negative |
| Ledger.TotalFundsNonNegative | P2P_projekt/Core/BankEngine.cs:173 | the total of a ledger whose balances are non-negative is not negative |
| Ledger.TotalFundsPick | P2P_projekt/Core/BankEngine.cs:173 | the sum of balances is the same whichever account is taken out first |
| Ledger.Wrap64 | P2P_projekt/Core/BankEngine.cs:111 | unchecked long arithmetic: the result is a long congruent to the exact value modulo 2^64, and equal to it when the exact value fits |
| Ledger.DepositInt64 | P2P_projekt/Core/BankEngine.cs:108-111 | the deposit with the unchecked long `+=`; specified by DepositInt64CanGoNegative and Int64AgreesWithoutOverflow |
| Ledger.WithdrawInt64 | P2P_projekt/Core/BankEngine.cs:127-130 | the withdrawal with the unchecked long `-=`; specified by WithdrawInt64CanGoNegative and Int64AgreesWithoutOverflow |
| Ledger.DepositInt64CanGoNegative | P2P_projekt/Core/BankEngine.cs:109-111 | with long balances, depositing long.MaxValue into a balance of 1 is accepted and leaves long.MinValue |
| Ledger.WithdrawInt64CanGoNegative | P2P_projekt/Core/BankEngine.cs:128-130 | with long balances, withdrawing long.MinValue from a balance of 0 passes the funds check and leaves long.MinValue |
| Ledger.Int64AgreesWithoutOverflow | P2P_projekt/Core/BankEngine.cs:111-130 | whenever the new balance fits a long, the source's arithmetic and the model's give the same map |
| Bank.Attached | P2P_projekt/Core/BankEngine.cs:49 | the observer list after Attach; specified by AttachIdempotent and AttachKeepsDistinct |
| Bank.AttachIdempotent | P2P_projekt/Core/BankEngine.cs:49 | attaching an observer twice is the same as attaching it once |
| Bank.AttachKeepsDistinct | P2P_projekt/Core/BankEngine.cs:49 | attaching keeps the observer list free of duplicates; the list then holds the old observers and the new one, and nothing else |
| Bank.Broadcast | P2P_projekt/Core/BankEngine.cs:65 | one notification is one Update per attached observer, in attachment order, all with the same totals |
| Bank.BankEngine.constructor | P2P_projekt/Core/BankEngine.cs:29-39 | the engine starts with the loaded map, offline, with no observers, nothing saved and nothing notified |
| Bank.BankEngine.Attach | P2P_projekt/Core/BankEngine.cs:45-51 | the observer list becomes `Attached(old list, o)`; the ledger, status and logs are unchanged |
| Bank.BankEngine.Notify | P2P_projekt/Core/BankEngine.cs:56-66 | appends `Broadcast(observers, total funds, account count)` to the update log and changes nothing else |
| Bank.BankEngine.SetStatus | P2P_projekt/Core/BankEngine.cs:72-76 | sets the status, then notifies every observer with the current totals |
| Bank.BankEngine.Save | P2P_projekt/Core/BankEngine.cs:91 | the current map is appended to the storage log |
| Bank.BankEngine.CreateAccount | P2P_projekt/Core/BankEngine.cs:82-96 | returns an id in 10000..99998 not in use before, inserts it with balance 0, saves the new map once and notifies once; observers and status are unchanged and balances stay non-negative |
| Bank.BankEngine.Deposit | P2P_projekt/Core/BankEngine.cs:104-115 | on success of `Ledger.Deposit` the map becomes its result, which is saved once and notified once; on failure the outcome carries the localized message and the map, storage log and update log are unchanged |
| Bank.BankEngine.Withdraw | P2P_projekt/Core/BankEngine.cs:123-134 | as Deposit, against `Ledger.Withdraw` |
| Bank.BankEngine.GetBalance | P2P_projekt/Core/BankEngine.cs:142-149 | the stored balance, or the localized "ErrAccount" message for a missing account; nothing changes |
| Bank.BankEngine.RemoveAccount | P2P_projekt/Core/BankEngine.cs:156-167 | as Deposit, against `Ledger.Remove` |
| Bank.BankEngine.GetTotalFunds | P2P_projekt/Core/BankEngine.cs:173 | the sum of all balances, by a loop that takes accounts out one at a time; nothing changes |
| Bank.BankEngine.GetClientCount | P2P_projekt/Core/BankEngine.cs:179 | the number of accounts; nothing changes |
| Text.Trim | P2P_projekt/Commands/CommandFactory.cs:21 | .NET's Trim; specified by TrimStart, TrimEnd, TrimEmptyIffBlank and TrimByUnchanged |
| Text.Join | P2P_projekt/Commands/RobberyCommand.cs:57 | the separator between each two parts; specified by JoinSplit and SplitJoin |
| Text.TrimStart | P2P_projekt/Commands/CommandFactory.cs:21 | the result is a suffix of the input, every dropped character is white, and the result does not start with white space |
| Text.TrimEnd | P2P_projekt/Commands/CommandFactory.cs:21 | the result is a prefix of the input, every dropped character is white, and the result does not end with white space |
| Text.TrimEmptyIffBlank | P2P_projekt/Commands/CommandFactory.cs:16-21 | trimming leaves nothing exactly when the line is empty or white space only |
| Text.TrimByUnchanged | P2P_projekt/Commands/CommandFactory.cs:21 | a string that neither starts nor ends with white space is its own trim |
| Text.Upper | P2P_projekt/Commands/CommandFactory.cs:24 | same length, each character upper-cased |
| Text.UpperIdempotent | P2P_projekt/Commands/CommandFactory.cs:24 | upper-casing a second time changes nothing |
| Text.Split | P2P_projekt/Commands/CommandFactory.cs:21 | one more piece than there are separators, and no piece holds a separator; never an empty array |
| Text.JoinSplit | P2P_projekt/Commands/CommandFactory.cs:54 | joining the pieces of a split with the separator gives back the string |
| Text.SplitJoin | P2P_projekt/Commands/CommandFactory.cs:21 | splitting a join of separator-free pieces gives back the pieces |
| Text.SplitPair | P2P_projekt/Commands/CommandFactory.cs:54-58 | `a/b` with no '/' in a or b splits into exactly [a, b] |
| Text.SplitPairInverse | P2P_projekt/Commands/CommandFactory.cs:54-58 | a split into exactly two pieces is the first piece, the separator and the second piece |
| Text.NatToString | P2P_projekt/Commands/BaseCommands.cs:76 | a non-empty string of digits, a single digit exactly below 10, starting with '0' exactly for zero, so without leading zeros |
| Text.IntToString | P2P_projekt/Commands/BaseCommands.cs:76 | non-empty, digits and '-' only, ending in a digit |
| Text.IntToStringCanonical | P2P_projekt/Commands/BaseCommands.cs:76 | the text is canonical: a leading '-' exactly for negative numbers and nowhere else, then digits with no leading zero, "0" only for zero |
| Text.NatToStringValue | P2P_projekt/Commands/BaseCommands.cs:76 | the digits of n have the value n |
| Text.ParseIntToString | P2P_projekt/Commands/BaseCommands.cs:76 | parsing a formatted number gives back the number |
| Text.ParseInteger | P2P_projekt/Commands/CommandFactory.cs:66-68 | the number the integer parsers read before their range check; specified by ParseIntToString, ParseBounded and IntToStringCanonical |
| Text.FaultMessage | P2P_projekt/Commands/CommandFactory.cs:43-46 | the message of each exception the parser catches; used by ParseMalformedTarget, ParseRobbery and ParseLocalTransaction |
| Text.ParseBounded | P2P_projekt/Commands/CommandFactory.cs:66 | parsed iff the text is a number within the bounds, malformed iff it is not a number at all, otherwise out of range |
| Text.ParseInt32 | P2P_projekt/Commands/CommandFactory.cs:66 | succeeds iff the text is a number in the int range, with that number; otherwise fails with the format exception for a non-number and the Int32 overflow exception for an out-of-range number |
| Text.ParseInt64 | P2P_projekt/Commands/RobberyCommand.cs:18 | succeeds iff the text is a number in the long range, with that number; otherwise fails with the format exception for a non-number and the Int64 overflow exception for an out-of-range number |
| Text.TryParseInt64 | P2P_projekt/Commands/CommandFactory.cs:68 | the number when the text is a long, otherwise 0 |
| CommandFactory.Parse | P2P_projekt/Commands/CommandFactory.cs:13-48 | the line parser; specified by ParseBlank, ParseFixedCodes, ParseUnknownCode, ParseRobbery, ParseForwardsForeign, ForwardedIsForeign, ParseLocalTransaction and RequestLineRoundTrip |
| CommandFactory.Dispatch | P2P_projekt/Commands/CommandFactory.cs:27-41 | the switch on the code; specified by DispatchNeverEmpty, DispatchFixed, DispatchTransaction, DispatchRobbery and DispatchProxy |
| CommandFactory.HandleTransaction | P2P_projekt/Commands/CommandFactory.cs:50-78 | the `acc/ip` handling; specified by HandleForeign, HandleLocal, HandleProxyIsForeign and TransactionParts |
| CommandFactory.Amount | P2P_projekt/Commands/CommandFactory.cs:67-68 | the third token read by long.TryParse; specified by AmountDefaultsToZero |
| CommandFactory.Tokens | P2P_projekt/Commands/CommandFactory.cs:21-22 | a line always has at least one token, so the empty-array branch cannot be taken |
| CommandFactory.DispatchNeverEmpty | P2P_projekt/Commands/CommandFactory.cs:27-46 | no code and no tokens make the switch or its catch answer with the empty-command error |
| CommandFactory.ParseBlank | P2P_projekt/Commands/CommandFactory.cs:16-17 | the "Prázdný příkaz" error is given exactly for empty or white-space-only lines |
| CommandFactory.ParseFixedCodes | P2P_projekt/Commands/CommandFactory.cs:24-32 | BC, AC, BA and BN, in any letter case and whatever follows, give their commands, and no other line gives those commands |
| CommandFactory.DispatchFixed | P2P_projekt/Commands/CommandFactory.cs:27-32 | whatever the tokens, the switch gives BankCode, AccountCreate and the two BankInfo commands for BC, AC, BA and BN and for no other code |
| CommandFactory.DispatchTransaction | P2P_projekt/Commands/CommandFactory.cs:34-38 | the switch hands AD, AW, AB and AR to HandleTransaction with the original line |
| CommandFactory.ParseUnknownCode | P2P_projekt/Commands/CommandFactory.cs:39-40 | a code outside the nine (BC, AC, AD, AW, AB, AR, BA, BN, RP) gives the "Neznámý příkaz: " error naming the upper-cased code |
| CommandFactory.ParseMalformedTarget | P2P_projekt/Commands/CommandFactory.cs:52-55 | AD/AW/AB/AR without a second token, or whose second token does not hold exactly one '/', give the caught ArgumentException as a format error |
| CommandFactory.ParseTransaction | P2P_projekt/Commands/CommandFactory.cs:34-38 | a transaction code is handled by HandleTransaction with the original line, and any exception it throws becomes a format error |
| CommandFactory.DispatchProxy | P2P_projekt/Commands/CommandFactory.cs:27-41 | only a transaction code can produce a Proxy |
| CommandFactory.HandleForeign | P2P_projekt/Commands/CommandFactory.cs:61-64 | an `acc/ip` token whose ip is not local forwards the original line to that ip, whatever the account text |
| CommandFactory.HandleProxyIsForeign | P2P_projekt/Commands/CommandFactory.cs:54-64 | a Proxy always comes from a second token with exactly one '/', ending in the proxy's non-local address, and carries the original line |
| CommandFactory.HandleLocal | P2P_projekt/Commands/CommandFactory.cs:66-77 | on a local address, an account text that is not an int throws int.Parse's exception; otherwise the command carries the account and, for AD/AW, the amount |
| CommandFactory.AmountDefaultsToZero | P2P_projekt/Commands/CommandFactory.cs:67-68 | the amount is the parsed long, or 0 when the third token is missing or is not a long |
| CommandFactory.ParseForwardsForeign | P2P_projekt/Commands/CommandFactory.cs:61-64 | a transaction line addressed to a foreign node parses to Proxy(ip, the line unchanged) |
| CommandFactory.ForwardedIsForeign | P2P_projekt/Commands/CommandFactory.cs:50-64 | conversely, a Proxy comes only from a non-blank transaction line whose second token is `acc/ip` with a non-local ip, and carries the line unchanged |
| CommandFactory.ParseLocalTransaction | P2P_projekt/Commands/CommandFactory.cs:66-77 | on a local route, a non-int account gives the format error with int.Parse's message; otherwise AD/AW/AB/AR give Deposit/Withdraw/Balance/Remove with that account and the TryParse amount |
| CommandFactory.ParseRobbery | P2P_projekt/Commands/CommandFactory.cs:33-46 | RP without a target gives "Chyba formátu příkazu: Target needed"; RP parses to a robbery iff its target is a long, with that target; otherwise it gives an error |
| CommandFactory.ParseOfTokens | P2P_projekt/Commands/CommandFactory.cs:13-46 | a non-blank line is dispatched on its upper-cased first token with its own token list, and exceptions become format errors |
| CommandFactory.TransactionParts | P2P_projekt/Commands/CommandFactory.cs:50-78 | tokens "code", "acc/ip" and an amount text: a foreign ip gives the Proxy of the line; a local one gives Deposit/Withdraw/Balance/Remove with the parsed account and amount |
| CommandFactory.TransactionTokens | P2P_projekt/Commands/CommandFactory.cs:50-78 | the same for tokens written as decimal numbers of an int account and a long amount |
| CommandFactory.RobberyTarget | P2P_projekt/Commands/RobberyCommand.cs:17-18 | a second token that is a number in the long range is the robbery target |
| CommandFactory.DispatchRobbery | P2P_projekt/Commands/CommandFactory.cs:33 | the RP code with a successfully read target gives the Robbery command |
| CommandFactory.RobberyTokens | P2P_projekt/Commands/CommandFactory.cs:33-46 | the tokens "RP" and a long number give the Robbery with that number, nothing caught |
| CommandFactory.JoinedTokens | P2P_projekt/Commands/CommandFactory.cs:16-22 | a line made of space-free tokens joined by single spaces, with no white space at either end, is not blank and splits back into exactly those tokens |
| CommandFactory.ThreeTokens | P2P_projekt/Commands/CommandFactory.cs:16-22 | three space-free tokens joined by single spaces, with no white space at either end, are the line's tokens |
| CommandFactory.RequestLineTokens | P2P_projekt/Commands/CommandFactory.cs:21-24 | the line "code acc/ip amount" is not blank, its tokens are exactly those three, and its code is the code |
| CommandFactory.RequestLineRoundTrip | P2P_projekt/Commands/CommandFactory.cs:13-78 | a request line built from an int account and a long amount parses back to the transaction it encodes when the address is local, and is forwarded unchanged when it is not |
| CommandFactory.RobberyLineTokens | P2P_projekt/Commands/CommandFactory.cs:21 | "RP n" is not blank and its tokens are "RP" and the digits of n |
| CommandFactory.RobberyLineRoundTrip | P2P_projekt/Commands/CommandFactory.cs:33 | "RP n" for a long n parses to the robbery with target n |
| RobberyCommand.Target | P2P_projekt/Commands/RobberyCommand.cs:15-19 | fewer than two tokens is "Target needed"; otherwise success iff the second token is a long, with that number |
| RobberyCommand.ParseCandidate | P2P_projekt/Commands/RobberyCommand.cs:34-41 | what one node's BA and BN replies give; specified by ParseCandidateExact and by BaseCommands.BankInfoReadBack |
| RobberyCommand.ParseCandidateExact | P2P_projekt/Commands/RobberyCommand.cs:34-41 | a node becomes a candidate exactly when both replies carry their prefixes and second tokens that parse as a long and an int; the candidate holds those numbers and the node's address |
| RobberyCommand.Queries | P2P_projekt/Commands/RobberyCommand.cs:27-32 | one BA query and one BN query per listed node, in list order |
| RobberyCommand.Readings | P2P_projekt/Commands/RobberyCommand.cs:27-42 | one reading per reply, in reply order |
| RobberyCommand.Present | P2P_projekt/Commands/RobberyCommand.cs:34-39 | never more values than options |
| RobberyCommand.PositionsSound | P2P_projekt/Commands/RobberyCommand.cs:27-42 | every listed position holds a value, and the positions strictly increase |
| RobberyCommand.PositionsComplete | P2P_projekt/Commands/RobberyCommand.cs:27-42 | every position that holds a value is listed |
| RobberyCommand.PresentAtPositions | P2P_projekt/Commands/RobberyCommand.cs:27-42 | the present values are the values at the listed positions, one each and in order |
| RobberyCommand.Candidates | P2P_projekt/Commands/RobberyCommand.cs:27-42 | never more candidates than nodes asked |
| RobberyCommand.CandidatesInOrder | P2P_projekt/Commands/RobberyCommand.cs:27-42 | the candidates are, one each and in reply order, the readings at a strictly increasing list of reply positions that covers every reply that parses, so ties later keep the order of the victim list |
| RobberyCommand.CandidatesSound | P2P_projekt/Commands/RobberyCommand.cs:34-41 | every candidate comes from a node whose replies parse |
| RobberyCommand.CandidatesComplete | P2P_projekt/Commands/RobberyCommand.cs:34-41 | every node whose replies parse is a candidate |
| RobberyCommand.Collect | P2P_projekt/Commands/RobberyCommand.cs:25-42 | the query loop's result equals the candidates of all the listed nodes' replies |
| RobberyCommand.InsertByMoney | P2P_projekt/Commands/RobberyCommand.cs:44 | one insertion step of the stable descending sort; specified by InsertByMoneyPerm, InsertByMoneySorted and InsertByMoneyStable |
| RobberyCommand.SortByMoney | P2P_projekt/Commands/RobberyCommand.cs:44 | the ranking by funds, richest first; specified by SortByMoneyCorrect |
| RobberyCommand.InsertByMoneyPerm | P2P_projekt/Commands/RobberyCommand.cs:44 | inserting adds exactly the one element |
| RobberyCommand.InsertByMoneySorted | P2P_projekt/Commands/RobberyCommand.cs:44 | inserting into a list ordered by descending funds keeps it ordered |
| RobberyCommand.InsertByMoneyStable | P2P_projekt/Commands/RobberyCommand.cs:44 | inserting puts the new element ahead of every element with the same funds |
| RobberyCommand.SortByMoneyCorrect | P2P_projekt/Commands/RobberyCommand.cs:44 | the ranking is ordered by descending funds, is a permutation of the candidates, and keeps the candidate order among equal funds |
| RobberyCommand.GreedyPrefixUnique | P2P_projekt/Commands/RobberyCommand.cs:49-55 | only one prefix length meets the stopping rule |
| RobberyCommand.FirstReach | P2P_projekt/Commands/RobberyCommand.cs:49-55 | the first prefix length from j on that reaches the target, or the whole list, meets the stopping rule |
| RobberyCommand.GreedyCount | P2P_projekt/Commands/RobberyCommand.cs:49-55 | the number of nodes taken meets the stopping rule: before each node taken the funds were below the target, and after the last one the target is reached or no node is left |
| RobberyCommand.Select | P2P_projekt/Commands/RobberyCommand.cs:45-55 | the selection loop takes a prefix that meets the stopping rule; the targets are its addresses in rank order; stolen and victims are its funds and client sums; a target of 0 or less takes nothing |
| RobberyCommand.Reply | P2P_projekt/Commands/RobberyCommand.cs:57 | the reply begins with "RP " |
| RobberyCommand.Ips | P2P_projekt/Commands/RobberyCommand.cs:54 | the addresses of the nodes, in the same order |
| RobberyCommand.Plan | P2P_projekt/Commands/RobberyCommand.cs:21-58 | the reply to RP as a value; specified by RobberyCommand.Execute, Select, CandidatesInOrder, SortByMoneyCorrect and ExampleSelection |
| RobberyCommand.Execute | P2P_projekt/Commands/RobberyCommand.cs:21-58 | the reply names the target, the addresses of the greedy prefix of the ranked candidates of the node itself and 127.0.0.1, and their client total |
| RobberyCommand.ExampleSelection | P2P_projekt/Commands/RobberyCommand.cs:44-55 | nodes with 30, 100 and 50 are ranked 100, 50, 30; for a target of 120 the first two are taken, 150 in all |
| RobberyCommand.ZeroFundsNodeIsTaken | P2P_projekt/Commands/RobberyCommand.cs:49-55 | a node reporting no funds is not filtered out and is taken while the target is not reached |
| BaseCommands.ErrorReply | P2P_projekt/Commands/BaseCommands.cs:131 | "ER " followed by the message; the Error case of BaseCommands.Executed |
| BaseCommands.BankCodeReply | P2P_projekt/Commands/BaseCommands.cs:12 | "BC " followed by the node's address; the BC case of BaseCommands.Executed |
| BaseCommands.CreateReply | P2P_projekt/Commands/BaseCommands.cs:23 | "AC acc/ip"; specified by CreateReplyIsRequestTarget |
| BaseCommands.OutcomeReply | P2P_projekt/Commands/BaseCommands.cs:42-45 | the code on success, the error otherwise; specified by OutcomeReplyDistinguishes |
| BaseCommands.BalanceReply | P2P_projekt/Commands/BaseCommands.cs:75-78 | "AB " and the balance, or the error; specified by BalanceReplyRoundTrip |
| BaseCommands.BankInfoReply | P2P_projekt/Commands/BaseCommands.cs:105-106 | "BA " and the total or "BN " and the count; specified by BankInfoReadBack |
| BaseCommands.OutcomeReplyDistinguishes | P2P_projekt/Commands/BaseCommands.cs:38-46 | the AD/AW/AR reply is the bare code exactly on success; otherwise it is "ER " followed by the failure message |
| BaseCommands.BalanceReplyRoundTrip | P2P_projekt/Commands/BaseCommands.cs:75-76 | a balance reply starts with "AB " and the number after it reads back as the balance |
| BaseCommands.BankInfoReadBack | P2P_projekt/Commands/BaseCommands.cs:105-106 | the planner's reply parser reads a node's "BA" and "BN" replies back as that node's funds and client count |
| BaseCommands.CreateReplyIsRequestTarget | P2P_projekt/Commands/BaseCommands.cs:23 | the account part of an AC reply, put after "AD ", is exactly the deposit request line for the new account on this node |
| BaseCommands.Executed | P2P_projekt/Commands/BaseCommands.cs:10-132 | what each command class answers and does to the ledger; ensured by BaseCommands.Execute and BaseCommands.HandleRequest |
| BaseCommands.Execute | P2P_projekt/Commands/BaseCommands.cs:10-132 | Executed: each command's response and new ledger state. Only AC, AD, AW and AR change the ledger. AD/AW/AR answer their code exactly when the ledger rule succeeds, and `ER` with the localized message otherwise, changing nothing. AB answers the balance, BA/BN the totals, Proxy the remote reply verbatim, and Error `ER ` plus its message. Non-negative balances stay non-negative |
| BaseCommands.HandleRequest | P2P_projekt/Network/TcpServer.cs:126-127 | a line parsed and executed: Executed holds for the parsed command, so its response and ledger change are those of Execute. A blank line answers "ER Prázdný příkaz", an unknown code answers its error, error commands change nothing, and a forwarded line is sent unchanged |
| BaseCommands.HandleDepositLine | P2P_projekt/Network/TcpServer.cs:126-127 | a line that parses to a deposit into an existing account with a non-negative amount answers "AD" and raises that balance by the amount |
| BaseCommands.ExecutedDeposit | P2P_projekt/Commands/BaseCommands.cs:38-46 | from Executed: such a deposit answers "AD" and raises the balance by the amount |

## Left out

- Session loop (`TcpServer.cs`): the accept loop, one task per client, cancellation, and stream reading and writing are not modelled. These are transport and concurrency code. `BaseCommands.HandleRequest` is the per-line step of that loop. The loop's own trimming and skipping of blank lines, and its "ER Internal Server Error" catch, are not modelled.
- Network client: `NetworkClient.SendRequest` is the function parameter `send`. Its timeouts and its "ER ..." error replies are whatever that function returns.
- Storage (`StorageChain.cs`): file I/O and serialisation are not modelled. Storage is the log of saved maps.
  - The loaded map is the constructor's argument.
  - `Load` ignores the CSV file, and the CSV file is written only when the JSON write fails. Neither behaviour shows in the model.
- Locking and concurrency: `lock` in every engine operation, and observers called from inside the lock, are not modelled. Each operation is one atomic sequential step.
- Bank.BankEngine.CreateAccount: the random retry loop is replaced by a nondeterministic choice of an unused id. The method requires that such an id exists. Without one, the source's loop never ends.
- Bank.BankEngine.Deposit: balances and amounts are unbounded integers. The source's unchecked `+=` on a long wraps around; see Findings and `Ledger.DepositInt64`.
- Bank.BankEngine.Withdraw: the same for `-=`; see Findings and `Ledger.WithdrawInt64`.
- Bank.BankEngine.GetTotalFunds: does not model the OverflowException that LINQ's checked `Sum` throws when the total does not fit a long. The same holds for the totals that `Notify` computes.
- Bank.BankEngine.Notify: does not model that its checked sum can throw. The model always notifies every observer. In the source, once the total passes long.MaxValue, the throw stops Notify before any observer is called.
- Bank.BankEngine.Deposit: the same overflow happens after the change is made. In the source, the new balance is already stored and saved when Notify throws. No observer is called, and the exception reaches the caller. The model returns `Done` and records the notifications.
- Bank.BankEngine.Withdraw: the same, for a withdrawal that comes after an over-full total.
- BaseCommands.Execute: for AD and AW in that situation, the source answers "ER Arithmetic operation resulted in an overflow.", although the change is kept and saved. The model answers "AD" or "AW". The same overflow would make AC and AR answer with an error after their change and make BA throw; none of this is modelled.
- RobberyCommand.Select: does not model wrap-around of the long `stolen` and int `victims` running totals.
- Text.Upper: upper-cases ASCII letters only. The source's culture-sensitive `ToUpper` also maps other letters, but none of them map onto the nine protocol codes.
- RobberyCommand.ParseCandidate: treats `StartsWith("BA")` as an ordinal prefix test. The source's culture-sensitive comparison is not modelled.
- Text.ParseInteger: does not model the trailing NUL characters that .NET's integer parsing also skips. Number formatting assumes the invariant "-" sign.
- Text.FaultMessage: the texts of ArgumentException, FormatException and OverflowException are .NET's English texts. They vary with the runtime version and the UI culture.
- Null input: a null line is not modelled, because strings here cannot be null.
- `AccountCreateCommand`'s catch: not modelled, because `CreateAccount` never throws in the model.
- The parser's "Neplatný formát" branch and the "Logic error" arm of `HandleTransaction` (reached only with a non-transaction code) cannot be reached from `Parse`. `CommandFactory.Tokens` shows the first.
- Logger, the WPF window and the DNS lookup in `AppConfig` are not modelled. The address and port are the constant `AppConfig.Settings` value.
- `Localization.CurrentLanguage` is static in the source. Here it is a field of one `Localizer` object shared by the engine.
- Features that appear only in the design description are not modelled, because the code does not have them:
  - subnet sweep;
  - parallel queries;
  - efficiency ranking;
  - a funds > 0 filter;
  - backup rotation.

## Findings

| source | as written | input that shows it | evidently intended | confidence | as-written member | corrected member |
|---|---|---|---|---|---|---|
| P2P_projekt/Core/BankEngine.cs:109-111 | the deposit adds to a long balance with unchecked `+=` | deposit long.MaxValue into an account holding 1: the balance becomes long.MinValue | a deposit raises the balance by exactly the amount, so balances stay non-negative | not executed; medium (unchecked is the C# default) | Ledger.DepositInt64CanGoNegative | Ledger.DepositEffect |
| P2P_projekt/Core/BankEngine.cs:128-130 | the funds check only compares the balance with the amount, then subtracts with unchecked `-=` | withdraw long.MinValue from an account holding 0: the check passes and the balance becomes long.MinValue | a withdrawal never leaves a negative balance | not executed; medium | Ledger.WithdrawInt64CanGoNegative | Ledger.WithdrawEffect |
