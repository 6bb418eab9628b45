/**
 * Executing a parsed command: each command runs against the bank engine (or
 * forwards, or plans a robbery) and turns the outcome into one response line.
 * A ledger failure becomes "ER " followed by its localized message.
 */
module BaseCommands {
  import opened Wrappers
  import opened Text
  import opened Ledger
  import AppConfig
  import Network
  import Bank
  import RobberyCommand
  import opened CommandFactory

  // ---------------------------------------------------------------------------
  // Response lines
  // ---------------------------------------------------------------------------

  function ErrorReply(message: string): string {
    "ER " + message
  }

  function BankCodeReply(ip: string): string {
    "BC " + ip
  }

  /** The reply to AC: the new account in the "account/ip" form requests use. */
  function CreateReply(id: int, ip: string): string {
    "AC " + IntToString(id) + "/" + ip
  }

  /** The reply to a void ledger operation: its code on success, else the error. */
  function OutcomeReply(code: string, o: Bank.Outcome): string {
    match o
    case Done => code
    case Failed(message) => ErrorReply(message)
  }

  function BalanceReply(r: Result<int, string>): string {
    match r
    case Success(balance) => "AB " + IntToString(balance)
    case Failure(message) => ErrorReply(message)
  }

  /** "BA <total funds>" or "BN <client count>". */
  function BankInfoReply(isAmount: bool, funds: int, clients: int): string {
    if isAmount then "BA " + IntToString(funds) else "BN " + IntToString(clients)
  }

  /** An operation's reply tells success from failure: it is the bare code
      exactly on success, and otherwise carries the failure message after "ER ". */
  lemma OutcomeReplyDistinguishes(code: string, o: Bank.Outcome)
    requires code == "AD" || code == "AW" || code == "AR"
    ensures OutcomeReply(code, o) == code <==> o.Done?
    ensures o.Failed? ==> StartsWith(OutcomeReply(code, o), "ER ") && OutcomeReply(code, o)[3..] == o.message
  {
    if o.Failed? {
      assert |OutcomeReply(code, o)| >= 3;
    }
  }

  /** A balance reply gives back its balance: reading the number after "AB " yields it. */
  lemma BalanceReplyRoundTrip(balance: int)
    ensures StartsWith(BalanceReply(Success(balance)), "AB ")
    ensures ParseInteger(BalanceReply(Success(balance))[3..]) == Some(balance)
  {
    ParseIntToString(balance);
    assert BalanceReply(Success(balance))[3..] == IntToString(balance);
  }

  lemma NumberLineSplit(prefix: string, n: int)
    requires |prefix| == 2 && ' ' !in prefix
    ensures Split(prefix + " " + IntToString(n), ' ') == [prefix, IntToString(n)]
  {
    var t := IntToString(n);
    assert prefix + " " + t == Join([prefix, t], " ") by {
      assert [prefix, t][1..] == [t];
    }
    SplitJoin([prefix, t], ' ');
  }

  /** The planner reads two bank-info replies back as the candidate they
      describe, for a total that fits a long and a count that fits an int. */
  lemma BankInfoReadBack(ip: string, funds: int, clients: int)
    requires Int64Min <= funds <= Int64Max && Int32Min <= clients <= Int32Max
    ensures RobberyCommand.ParseCandidate(ip, BankInfoReply(true, funds, clients), BankInfoReply(false, funds, clients))
      == Some(RobberyCommand.Candidate(ip, funds, clients))
  {
    var ba := BankInfoReply(true, funds, clients);
    var bn := BankInfoReply(false, funds, clients);
    assert StartsWith(ba, "BA") && StartsWith(bn, "BN");
    assert Split(ba, ' ') == ["BA", IntToString(funds)] by {
      assert ba == "BA" + " " + IntToString(funds);
      NumberLineSplit("BA", funds);
    }
    assert Split(bn, ' ') == ["BN", IntToString(clients)] by {
      assert bn == "BN" + " " + IntToString(clients);
      NumberLineSplit("BN", clients);
    }
    assert ParseBounded(Split(ba, ' ')[1], Int64Min, Int64Max) == Parsed(funds) by {
      ParseIntToString(funds);
    }
    assert ParseBounded(Split(bn, ' ')[1], Int32Min, Int32Max) == Parsed(clients) by {
      ParseIntToString(clients);
    }
  }

  /** The AC reply's account part is a request target: "AD " + that part + " " + amount
      is exactly the request line for the new account on this node. */
  lemma CreateReplyIsRequestTarget(id: int, ip: string, amount: int)
    ensures "AD " + CreateReply(id, ip)[3..] + " " + IntToString(amount) == RequestLine("AD", id, ip, amount)
  {
    assert CreateReply(id, ip)[3..] == IntToString(id) + "/" + ip;
  }

  // ---------------------------------------------------------------------------
  // ICommand.Execute
  // ---------------------------------------------------------------------------

  /** The account map, the storage log and the notification log are as before. */
  predicate LedgerUnchanged(before: Accounts, saves: seq<Accounts>, updates: seq<Bank.Update>, engine: Bank.BankEngine)
    reads engine
  {
    engine.accounts == before && engine.saves == saves && engine.updates == updates
  }

  /** What executing `cmd` answers and does to the ledger, from the account
      map, storage log and notification log it started with. Only AC, AD, AW
      and AR may change the ledger, and each then changes it as the ledger
      rules say. */
  ghost predicate Executed(cmd: Command, cfg: AppConfig.Settings, send: Network.Transport,
                     before: Accounts, saves: seq<Accounts>, updates: seq<Bank.Update>,
                     engine: Bank.BankEngine, response: string)
    reads engine, engine.loc
  {
    && (!(cmd.AccountCreate? || cmd.Deposit? || cmd.Withdraw? || cmd.Remove?) ==>
          LedgerUnchanged(before, saves, updates, engine))
    && (cmd.BankCode? ==> response == BankCodeReply(cfg.ipAddress))
    && (cmd.AccountCreate? ==>
          exists id :: InIdRange(id) && id !in before
            && engine.accounts == before[id := 0] && response == CreateReply(id, cfg.ipAddress))
    && (cmd.BankInfo? ==> response == BankInfoReply(cmd.isAmount, TotalFunds(engine.accounts), |engine.accounts|))
    && (cmd.Robbery? ==> response == RobberyCommand.Plan(cmd.target, cfg, send))
    && (cmd.Deposit? ==>
          match Ledger.Deposit(before, cmd.account, cmd.amount)
          case Success(m) => response == "AD" && engine.accounts == m
          case Failure(e) => response == ErrorReply(engine.Message(e)) && LedgerUnchanged(before, saves, updates, engine))
    && (cmd.Withdraw? ==>
          match Ledger.Withdraw(before, cmd.account, cmd.amount)
          case Success(m) => response == "AW" && engine.accounts == m
          case Failure(e) => response == ErrorReply(engine.Message(e)) && LedgerUnchanged(before, saves, updates, engine))
    && (cmd.Remove? ==>
          match Ledger.Remove(before, cmd.account)
          case Success(m) => response == "AR" && engine.accounts == m
          case Failure(e) => response == ErrorReply(engine.Message(e)) && LedgerUnchanged(before, saves, updates, engine))
    && (cmd.Balance? ==>
          match Ledger.Balance(engine.accounts, cmd.account)
          case Success(b) => response == "AB " + IntToString(b)
          case Failure(e) => response == ErrorReply(engine.Message(e)))
    && (cmd.Proxy? ==> response == send(cmd.targetIp, cfg.port, cmd.fullCommand))
    && (cmd.Error? ==> response == ErrorReply(cmd.message))
  }

  /** Execute of each command class. */
  method Execute(cmd: Command, cfg: AppConfig.Settings, engine: Bank.BankEngine, send: Network.Transport) returns (response: string)
    requires cmd.AccountCreate? ==> HasFreeId(engine.accounts)
    modifies engine
    ensures engine.observers == old(engine.observers) && engine.isOnline == old(engine.isOnline)
    ensures Executed(cmd, cfg, send, old(engine.accounts), old(engine.saves), old(engine.updates), engine, response)
    ensures NonNegative(old(engine.accounts)) ==> NonNegative(engine.accounts)
  {
    match cmd {
      case BankCode =>
        response := BankCodeReply(cfg.ipAddress);
      case AccountCreate =>
        var id := engine.CreateAccount();
        response := CreateReply(id, cfg.ipAddress);
      case BankInfo(isAmount) =>
        if isAmount {
          var funds := engine.GetTotalFunds();
          response := "BA " + IntToString(funds);
        } else {
          var clients := engine.GetClientCount();
          response := "BN " + IntToString(clients);
        }
      case Robbery(target) =>
        response := RobberyCommand.Execute(target, cfg, send);
      case Deposit(account, amount) =>
        var o := engine.Deposit(account, amount);
        response := OutcomeReply("AD", o);
      case Withdraw(account, amount) =>
        var o := engine.Withdraw(account, amount);
        response := OutcomeReply("AW", o);
      case Balance(account) =>
        var r := engine.GetBalance(account);
        response := BalanceReply(r);
      case Remove(account) =>
        var o := engine.RemoveAccount(account);
        response := OutcomeReply("AR", o);
      case Proxy(targetIp, fullCommand) =>
        response := send(targetIp, cfg.port, fullCommand);
      case Error(message) =>
        response := ErrorReply(message);
    }
  }

  /** One request line, parsed and executed: the response the node writes back. */
  method HandleRequest(request: string, cfg: AppConfig.Settings, engine: Bank.BankEngine, send: Network.Transport) returns (response: string)
    requires Parse(request, cfg).AccountCreate? ==> HasFreeId(engine.accounts)
    modifies engine
    ensures IsBlank(request) ==> response == ErrorReply(EmptyCommand)
    ensures !IsBlank(request) && !IsKnownCode(Code(request)) ==> response == ErrorReply(UnknownCommand + Code(request))
    ensures Parse(request, cfg).Error? ==>
      LedgerUnchanged(old(engine.accounts), old(engine.saves), old(engine.updates), engine)
    ensures Parse(request, cfg).Proxy? ==> response == send(Parse(request, cfg).targetIp, cfg.port, request)
    ensures Executed(Parse(request, cfg), cfg, send, old(engine.accounts), old(engine.saves), old(engine.updates), engine, response)
    ensures engine.observers == old(engine.observers) && engine.isOnline == old(engine.isOnline)
    ensures NonNegative(old(engine.accounts)) ==> NonNegative(engine.accounts)
  {
    var cmd := Parse(request, cfg);
    if cmd.Proxy? {
      ForwardedIsForeign(request, cfg);
    }
    response := Execute(cmd, cfg, engine, send);
  }

  /** A request line that parses to a deposit into an existing account, with
      a non-negative amount, answers "AD" and raises that balance by the amount. */
  method HandleDepositLine(line: string, cfg: AppConfig.Settings, engine: Bank.BankEngine, send: Network.Transport)
    returns (response: string)
    requires Parse(line, cfg).Deposit?
    requires Parse(line, cfg).account in engine.accounts && Parse(line, cfg).amount >= 0
    modifies engine
    ensures response == "AD"
    ensures var cmd := Parse(line, cfg);
      engine.accounts == old(engine.accounts)[cmd.account := old(engine.accounts)[cmd.account] + cmd.amount]
  {
    ghost var before := engine.accounts;
    ghost var saves := engine.saves;
    ghost var updates := engine.updates;
    ghost var cmd := Parse(line, cfg);
    response := HandleRequest(line, cfg, engine, send);
    ExecutedDeposit(cmd, cfg, send, before, saves, updates, engine, response);
  }

  /** A deposit into an existing account with a non-negative amount answers
      "AD" and raises that balance by the amount. */
  lemma ExecutedDeposit(cmd: Command, cfg: AppConfig.Settings, send: Network.Transport,
                        before: Accounts, saves: seq<Accounts>, updates: seq<Bank.Update>,
                        engine: Bank.BankEngine, response: string)
    requires cmd.Deposit? && cmd.account in before && cmd.amount >= 0
    requires Executed(cmd, cfg, send, before, saves, updates, engine, response)
    ensures response == "AD" && engine.accounts == before[cmd.account := before[cmd.account] + cmd.amount]
  {
  }
}
