/**
 * The request parser: one protocol line becomes one command. Every input
 * gives a command; blank lines, unknown codes and malformed arguments give
 * an Error command whose message the node sends back after "ER ".
 */
module CommandFactory {
  import opened Wrappers
  import opened Text
  import AppConfig
  import RobberyCommand

  datatype Command =
    | BankCode
    | AccountCreate
    | BankInfo(isAmount: bool)
    | Robbery(target: int)
    | Deposit(account: int, amount: int)
    | Withdraw(account: int, amount: int)
    | Balance(account: int)
    | Remove(account: int)
    | Proxy(targetIp: string, fullCommand: string)
    | Error(message: string)

  const EmptyCommand: string := "Prázdný příkaz"
  const UnknownCommand: string := "Neznámý příkaz: "
  const BadFormat: string := "Chyba formátu příkazu: "

  /** The four codes that take an "account/ip" argument. */
  predicate IsTransactionCode(code: string) {
    code == "AD" || code == "AW" || code == "AB" || code == "AR"
  }

  predicate IsKnownCode(code: string) {
    code == "BC" || code == "AC" || code == "BA" || code == "BN" || code == "RP" || IsTransactionCode(code)
  }

  /** An address this node answers for itself rather than forwarding. */
  predicate IsLocal(ip: string, cfg: AppConfig.Settings) {
    ip == cfg.ipAddress || ip == AppConfig.Loopback || ip == "0.0.0.0"
  }

  /** The tokens of a line: trimmed, then split on single spaces. */
  function Tokens(input: string): (parts: seq<string>)
    ensures |parts| >= 1
  {
    Split(Trim(input), ' ')
  }

  /** The command code: the first token, upper-cased. */
  function Code(input: string): string {
    Upper(Tokens(input)[0])
  }

  /** Parse: a blank line is rejected first; any exception raised while the
      command is built is caught and becomes a format error. */
  function Parse(input: string, cfg: AppConfig.Settings): Command {
    if IsBlank(input) then Error(EmptyCommand)
    else Caught(Dispatch(Code(input), Tokens(input), input, cfg))
  }

  /** The catch block: an exception becomes a format error carrying its message. */
  function Caught(r: Result<Command, Fault>): Command {
    match r
    case Success(cmd) => cmd
    case Failure(f) => Error(BadFormat + FaultMessage(f))
  }

  /** The switch on the code; a Failure is an exception the command constructors throw. */
  function Dispatch(code: string, parts: seq<string>, input: string, cfg: AppConfig.Settings): Result<Command, Fault> {
    if code == "BC" then Success(BankCode)
    else if code == "AC" then Success(AccountCreate)
    else if code == "BA" then Success(BankInfo(true))
    else if code == "BN" then Success(BankInfo(false))
    else if code == "RP" then
      match RobberyCommand.Target(parts)
      case Success(t) => Success(Robbery(t))
      case Failure(f) => Failure(f)
    else if IsTransactionCode(code) then HandleTransaction(code, parts, input, cfg)
    else Success(Error(UnknownCommand + code))
  }

  /** The amount token, read by long.TryParse: 0 when it is missing or does not parse. */
  function Amount(parts: seq<string>): int {
    if |parts| > 2 then TryParseInt64(parts[2]) else 0
  }

  /** HandleTransaction: the second token must be "account/ip". A foreign ip
      forwards the whole original line; a local one needs an int account. */
  function HandleTransaction(code: string, parts: seq<string>, fullCmd: string, cfg: AppConfig.Settings): Result<Command, Fault> {
    if |parts| < 2 then Failure(InvalidArgument)
    else
      var target := Split(parts[1], '/');
      if |target| != 2 then Failure(InvalidArgument)
      else
        var accStr := target[0];
        var ip := target[1];
        if !IsLocal(ip, cfg) then Success(Proxy(ip, fullCmd))
        else
          match ParseInt32(accStr)
          case Failure(f) => Failure(f)
          case Success(accId) =>
            if code == "AD" then Success(Deposit(accId, Amount(parts)))
            else if code == "AW" then Success(Withdraw(accId, Amount(parts)))
            else if code == "AB" then Success(Balance(accId))
            else if code == "AR" then Success(Remove(accId))
            else Success(Error("Logic error"))
  }

  // ---------------------------------------------------------------------------
  // What Parse does
  // ---------------------------------------------------------------------------

  /** A message that starts differently is not the empty-command text. */
  lemma NotEmptyCommand(prefix: string, rest: string)
    requires prefix != [] && prefix[0] != EmptyCommand[0]
    ensures Error(prefix + rest) != Error(EmptyCommand)
  {
    assert (prefix + rest)[0] == prefix[0];
  }

  /** No code and no tokens make the switch answer with the empty-command error. */
  lemma DispatchNeverEmpty(code: string, parts: seq<string>, input: string, cfg: AppConfig.Settings)
    ensures Caught(Dispatch(code, parts, input, cfg)) != Error(EmptyCommand)
  {
    var r := Dispatch(code, parts, input, cfg);
    if r.Failure? {
      NotEmptyCommand(BadFormat, FaultMessage(r.error));
    } else if !IsKnownCode(code) {
      NotEmptyCommand(UnknownCommand, code);
    }
  }

  /** The "empty command" error is given exactly for blank lines. */
  lemma ParseBlank(input: string, cfg: AppConfig.Settings)
    ensures Parse(input, cfg) == Error(EmptyCommand) <==> IsBlank(input)
  {
    if !IsBlank(input) {
      DispatchNeverEmpty(Code(input), Tokens(input), input, cfg);
    }
  }

  /** The argument-less codes give their command, whatever follows them and
      in any letter case, and no other line gives those commands. */
  lemma ParseFixedCodes(input: string, cfg: AppConfig.Settings)
    ensures Parse(input, cfg) == BankCode <==> !IsBlank(input) && Code(input) == "BC"
    ensures Parse(input, cfg) == AccountCreate <==> !IsBlank(input) && Code(input) == "AC"
    ensures Parse(input, cfg) == BankInfo(true) <==> !IsBlank(input) && Code(input) == "BA"
    ensures Parse(input, cfg) == BankInfo(false) <==> !IsBlank(input) && Code(input) == "BN"
  {
    if !IsBlank(input) {
      DispatchFixed(Code(input), Tokens(input), input, cfg);
    }
  }

  /** The switch gives the argument-less commands for their codes and only for them. */
  lemma DispatchFixed(code: string, parts: seq<string>, input: string, cfg: AppConfig.Settings)
    ensures Caught(Dispatch(code, parts, input, cfg)) == BankCode <==> code == "BC"
    ensures Caught(Dispatch(code, parts, input, cfg)) == AccountCreate <==> code == "AC"
    ensures Caught(Dispatch(code, parts, input, cfg)) == BankInfo(true) <==> code == "BA"
    ensures Caught(Dispatch(code, parts, input, cfg)) == BankInfo(false) <==> code == "BN"
  {
  }

  /** The switch hands the transaction codes to HandleTransaction. */
  lemma DispatchTransaction(code: string, parts: seq<string>, input: string, cfg: AppConfig.Settings)
    requires IsTransactionCode(code)
    ensures Dispatch(code, parts, input, cfg) == HandleTransaction(code, parts, input, cfg)
  {
  }

  /** A code outside the protocol is reported back by name. */
  lemma ParseUnknownCode(input: string, cfg: AppConfig.Settings)
    requires !IsBlank(input) && !IsKnownCode(Code(input))
    ensures Parse(input, cfg) == Error(UnknownCommand + Code(input))
  {
  }

  /** A transaction code without a second token, or whose second token does
      not hold exactly one '/', gives the format error of ArgumentException. */
  lemma ParseMalformedTarget(input: string, cfg: AppConfig.Settings)
    requires !IsBlank(input) && IsTransactionCode(Code(input))
    requires |Tokens(input)| < 2 || Occurrences(Tokens(input)[1], '/') != 1
    ensures Parse(input, cfg) == Error(BadFormat + "Value does not fall within the expected range.")
  {
  }

  /** A non-blank line with the given tokens is dispatched on its upper-cased first token. */
  lemma ParseOfTokens(input: string, cfg: AppConfig.Settings, parts: seq<string>)
    requires !IsBlank(input) && Tokens(input) == parts
    ensures Parse(input, cfg) == Caught(Dispatch(Upper(parts[0]), parts, input, cfg))
  {
  }

  /** A line with a transaction code is handled by HandleTransaction. */
  lemma ParseTransaction(input: string, cfg: AppConfig.Settings)
    requires !IsBlank(input) && IsTransactionCode(Code(input))
    ensures Parse(input, cfg) == Caught(HandleTransaction(Code(input), Tokens(input), input, cfg))
  {
    DispatchTransaction(Code(input), Tokens(input), input, cfg);
  }

  /** Only the transaction codes can produce a Proxy. */
  lemma DispatchProxy(code: string, parts: seq<string>, input: string, cfg: AppConfig.Settings)
    requires Caught(Dispatch(code, parts, input, cfg)).Proxy?
    ensures IsTransactionCode(code)
    ensures Dispatch(code, parts, input, cfg) == HandleTransaction(code, parts, input, cfg)
    ensures HandleTransaction(code, parts, input, cfg).Success?
  {
    if code == "RP" {
      match RobberyCommand.Target(parts) {
        case Success(_) =>
        case Failure(_) =>
      }
    }
  }

  /** HandleTransaction forwards a foreign address with the original line. */
  lemma HandleForeign(code: string, parts: seq<string>, full: string, cfg: AppConfig.Settings, acc: string, ip: string)
    requires |parts| >= 2 && parts[1] == acc + "/" + ip
    requires '/' !in acc && '/' !in ip && !IsLocal(ip, cfg)
    ensures HandleTransaction(code, parts, full, cfg) == Success(Proxy(ip, full))
  {
    SplitPair(acc, ip, '/');
  }

  /** A Proxy from HandleTransaction always comes from a foreign "account/ip" token. */
  lemma HandleProxyIsForeign(code: string, parts: seq<string>, full: string, cfg: AppConfig.Settings)
    requires HandleTransaction(code, parts, full, cfg).Success?
    requires HandleTransaction(code, parts, full, cfg).value.Proxy?
    ensures |parts| >= 2
    ensures var ip := HandleTransaction(code, parts, full, cfg).value.targetIp;
      && Occurrences(parts[1], '/') == 1
      && parts[1] == Split(parts[1], '/')[0] + "/" + ip
      && !IsLocal(ip, cfg)
    ensures HandleTransaction(code, parts, full, cfg).value.fullCommand == full
  {
    assert |parts| >= 2;
    var target := Split(parts[1], '/');
    assert |target| == 2 && !IsLocal(target[1], cfg);
    assert HandleTransaction(code, parts, full, cfg) == Success(Proxy(target[1], full));
    SplitPairInverse(parts[1], '/');
  }

  /** HandleTransaction on a local address: the account must parse as an int. */
  lemma HandleLocal(code: string, parts: seq<string>, full: string, cfg: AppConfig.Settings, acc: string, ip: string)
    requires IsTransactionCode(code)
    requires |parts| >= 2 && parts[1] == acc + "/" + ip
    requires '/' !in acc && '/' !in ip && IsLocal(ip, cfg)
    ensures !ParseBounded(acc, Int32Min, Int32Max).Parsed? ==>
      HandleTransaction(code, parts, full, cfg) == Failure(ParseInt32(acc).error)
    ensures ParseBounded(acc, Int32Min, Int32Max).Parsed? ==>
      var n := ParseInteger(acc).value;
      var r := HandleTransaction(code, parts, full, cfg);
      && (code == "AD" ==> r == Success(Deposit(n, Amount(parts))))
      && (code == "AW" ==> r == Success(Withdraw(n, Amount(parts))))
      && (code == "AB" ==> r == Success(Balance(n)))
      && (code == "AR" ==> r == Success(Remove(n)))
  {
    SplitPair(acc, ip, '/');
  }

  /** The amount is the parsed long, or 0 when the token is missing or does not parse. */
  lemma AmountDefaultsToZero(parts: seq<string>)
    ensures |parts| > 2 && ParseBounded(parts[2], Int64Min, Int64Max).Parsed? ==> Amount(parts) == ParseInteger(parts[2]).value
    ensures |parts| <= 2 || !ParseBounded(parts[2], Int64Min, Int64Max).Parsed? ==> Amount(parts) == 0
  {
  }

  /** A transaction addressed to a foreign node is forwarded as the original line. */
  lemma ParseForwardsForeign(input: string, cfg: AppConfig.Settings, acc: string, ip: string)
    requires !IsBlank(input) && IsTransactionCode(Code(input))
    requires |Tokens(input)| >= 2 && Tokens(input)[1] == acc + "/" + ip
    requires '/' !in acc && '/' !in ip && !IsLocal(ip, cfg)
    ensures Parse(input, cfg) == Proxy(ip, input)
  {
    ParseTransaction(input, cfg);
    HandleForeign(Code(input), Tokens(input), input, cfg, acc, ip);
  }

  /** Conversely, only such a line is forwarded: a Proxy command always
      carries the original line and the foreign address of its second token. */
  lemma ForwardedIsForeign(input: string, cfg: AppConfig.Settings)
    requires Parse(input, cfg).Proxy?
    ensures !IsBlank(input) && IsTransactionCode(Code(input)) && |Tokens(input)| >= 2
    ensures var t := Tokens(input)[1];
      var ip := Parse(input, cfg).targetIp;
      && Occurrences(t, '/') == 1
      && t == Split(t, '/')[0] + "/" + ip
      && !IsLocal(ip, cfg)
    ensures Parse(input, cfg).fullCommand == input
  {
    var code := Code(input);
    assert !IsBlank(input);
    DispatchProxy(code, Tokens(input), input, cfg);
    HandleProxyIsForeign(code, Tokens(input), input, cfg);
  }

  /** A local transaction: the account token must be an int, and the command
      then carries it, with the amount long.TryParse reads (0 when the amount
      token is missing or does not parse). */
  lemma ParseLocalTransaction(input: string, cfg: AppConfig.Settings, acc: string, ip: string)
    requires !IsBlank(input) && IsTransactionCode(Code(input))
    requires |Tokens(input)| >= 2 && Tokens(input)[1] == acc + "/" + ip
    requires '/' !in acc && '/' !in ip && IsLocal(ip, cfg)
    ensures !ParseBounded(acc, Int32Min, Int32Max).Parsed? ==>
      Parse(input, cfg) == Error(BadFormat + FaultMessage(ParseInt32(acc).error))
    ensures ParseBounded(acc, Int32Min, Int32Max).Parsed? ==>
      var n := ParseInteger(acc).value;
      var amount := Amount(Tokens(input));
      && (Code(input) == "AD" ==> Parse(input, cfg) == Deposit(n, amount))
      && (Code(input) == "AW" ==> Parse(input, cfg) == Withdraw(n, amount))
      && (Code(input) == "AB" ==> Parse(input, cfg) == Balance(n))
      && (Code(input) == "AR" ==> Parse(input, cfg) == Remove(n))
  {
    ParseTransaction(input, cfg);
    HandleLocal(Code(input), Tokens(input), input, cfg, acc, ip);
  }

  /** RP needs a target token, read as a long. */
  lemma ParseRobbery(input: string, cfg: AppConfig.Settings)
    requires !IsBlank(input) && Code(input) == "RP"
    ensures |Tokens(input)| < 2 ==> Parse(input, cfg) == Error(BadFormat + "Target needed")
    ensures Parse(input, cfg).Robbery? <==> |Tokens(input)| >= 2 && ParseBounded(Tokens(input)[1], Int64Min, Int64Max).Parsed?
    ensures Parse(input, cfg).Robbery? ==> Some(Parse(input, cfg).target) == ParseInteger(Tokens(input)[1])
    ensures !Parse(input, cfg).Robbery? ==> Parse(input, cfg).Error?
  {
  }

  // ---------------------------------------------------------------------------
  // Round trips: a well-formed request line parses to the request it encodes
  // ---------------------------------------------------------------------------

  lemma NoSpaceInNumber(n: int)
    ensures ' ' !in IntToString(n) && '/' !in IntToString(n)
    ensures !IsWhiteSpace(IntToString(n)[|IntToString(n)| - 1])
  {
  }

  /** The line "<code> <account>/<ip> <amount>" for an int account and a long amount. */
  function RequestLine(code: string, acc: int, ip: string, amount: int): string {
    code + " " + IntToString(acc) + "/" + ip + " " + IntToString(amount)
  }

  /** A line made of space-free tokens joined by single spaces, starting and
      ending with a non-white character, is not blank and splits back into them. */
  lemma JoinedTokens(line: string, parts: seq<string>)
    requires |parts| >= 1 && line == Join(parts, " ")
    requires forall i :: 0 <= i < |parts| ==> ' ' !in parts[i]
    requires line != [] && !IsWhiteSpace(line[0]) && !IsWhiteSpace(line[|line| - 1])
    ensures !IsBlank(line) && Tokens(line) == parts
  {
    TrimByUnchanged(line, IsWhiteSpace);
    SplitJoin(parts, ' ');
  }

  /** Three space-free tokens joined by single spaces, with no white space at
      either end of the line, are the line's tokens. */
  lemma ThreeTokens(line: string, a: string, b: string, c: string)
    requires line == a + " " + b + " " + c
    requires ' ' !in a && ' ' !in b && ' ' !in c
    requires a != [] && !IsWhiteSpace(a[0]) && c != [] && !IsWhiteSpace(c[|c| - 1])
    ensures !IsBlank(line) && Tokens(line) == [a, b, c]
  {
    assert [a, b, c][1..] == [b, c];
    assert [b, c][1..] == [c];
    assert Join([b, c], " ") == b + " " + c;
    assert Join([a, b, c], " ") == a + " " + (b + " " + c);
    assert line[0] == a[0] && line[|line| - 1] == c[|c| - 1];
    JoinedTokens(line, [a, b, c]);
  }

  /** A request line is not blank and its tokens are the code, "account/ip" and the amount. */
  lemma RequestLineTokens(code: string, acc: int, ip: string, amount: int)
    requires IsTransactionCode(code)
    requires ' ' !in ip && '/' !in ip
    ensures var line := RequestLine(code, acc, ip, amount);
      && !IsBlank(line)
      && Tokens(line) == [code, IntToString(acc) + "/" + ip, IntToString(amount)]
      && Code(line) == code
  {
    var line := RequestLine(code, acc, ip, amount);
    var target := IntToString(acc) + "/" + ip;
    var amountStr := IntToString(amount);
    assert ' ' !in target by {
      NoSpaceInNumber(acc);
    }
    assert ' ' !in amountStr && amountStr != [] && !IsWhiteSpace(amountStr[|amountStr| - 1]) by {
      NoSpaceInNumber(amount);
    }
    assert code != [] && ' ' !in code && !IsWhiteSpace(code[0]) && Upper(code) == code;
    ThreeTokens(line, code, target, amountStr);
  }

  /** A request line parses to its transaction when the address is local,
      and is forwarded verbatim when it is not. */
  lemma RequestLineRoundTrip(code: string, acc: int, ip: string, amount: int, cfg: AppConfig.Settings)
    requires IsTransactionCode(code)
    requires Int32Min <= acc <= Int32Max && Int64Min <= amount <= Int64Max
    requires ' ' !in ip && '/' !in ip
    ensures var line := RequestLine(code, acc, ip, amount);
      && (!IsLocal(ip, cfg) ==> Parse(line, cfg) == Proxy(ip, line))
      && (IsLocal(ip, cfg) && code == "AD" ==> Parse(line, cfg) == Deposit(acc, amount))
      && (IsLocal(ip, cfg) && code == "AW" ==> Parse(line, cfg) == Withdraw(acc, amount))
      && (IsLocal(ip, cfg) && code == "AB" ==> Parse(line, cfg) == Balance(acc))
      && (IsLocal(ip, cfg) && code == "AR" ==> Parse(line, cfg) == Remove(acc))
  {
    var line := RequestLine(code, acc, ip, amount);
    var parts := [code, IntToString(acc) + "/" + ip, IntToString(amount)];
    RequestLineTokens(code, acc, ip, amount);
    TransactionTokens(code, acc, ip, amount, line, cfg, parts);
    ParseOfTokens(line, cfg, parts);
    DispatchTransaction(code, parts, line, cfg);
  }

  /** HandleTransaction on the tokens of a request line, whatever the line itself. */
  lemma TransactionTokens(code: string, acc: int, ip: string, amount: int, line: string, cfg: AppConfig.Settings, parts: seq<string>)
    requires IsTransactionCode(code)
    requires Int32Min <= acc <= Int32Max && Int64Min <= amount <= Int64Max
    requires '/' !in ip
    requires parts == [code, IntToString(acc) + "/" + ip, IntToString(amount)]
    ensures Upper(parts[0]) == code
    ensures !IsLocal(ip, cfg) ==> HandleTransaction(code, parts, line, cfg) == Success(Proxy(ip, line))
    ensures IsLocal(ip, cfg) && code == "AD" ==> HandleTransaction(code, parts, line, cfg) == Success(Deposit(acc, amount))
    ensures IsLocal(ip, cfg) && code == "AW" ==> HandleTransaction(code, parts, line, cfg) == Success(Withdraw(acc, amount))
    ensures IsLocal(ip, cfg) && code == "AB" ==> HandleTransaction(code, parts, line, cfg) == Success(Balance(acc))
    ensures IsLocal(ip, cfg) && code == "AR" ==> HandleTransaction(code, parts, line, cfg) == Success(Remove(acc))
  {
    NoSpaceInNumber(acc);
    ParseIntToString(acc);
    ParseIntToString(amount);
    TransactionParts(code, acc, IntToString(acc), ip, amount, IntToString(amount), line, cfg, parts);
  }

  lemma TransactionParts(code: string, acc: int, accStr: string, ip: string, amount: int, amountStr: string,
                         line: string, cfg: AppConfig.Settings, parts: seq<string>)
    requires IsTransactionCode(code)
    requires Int32Min <= acc <= Int32Max && Int64Min <= amount <= Int64Max
    requires ParseInteger(accStr) == Some(acc) && ParseInteger(amountStr) == Some(amount)
    requires '/' !in accStr && '/' !in ip
    requires |parts| == 3 && parts[0] == code && parts[1] == accStr + "/" + ip && parts[2] == amountStr
    ensures Upper(parts[0]) == code
    ensures !IsLocal(ip, cfg) ==> HandleTransaction(code, parts, line, cfg) == Success(Proxy(ip, line))
    ensures IsLocal(ip, cfg) && code == "AD" ==> HandleTransaction(code, parts, line, cfg) == Success(Deposit(acc, amount))
    ensures IsLocal(ip, cfg) && code == "AW" ==> HandleTransaction(code, parts, line, cfg) == Success(Withdraw(acc, amount))
    ensures IsLocal(ip, cfg) && code == "AB" ==> HandleTransaction(code, parts, line, cfg) == Success(Balance(acc))
    ensures IsLocal(ip, cfg) && code == "AR" ==> HandleTransaction(code, parts, line, cfg) == Success(Remove(acc))
  {
    if IsLocal(ip, cfg) {
      assert ParseBounded(accStr, Int32Min, Int32Max).Parsed? by {
        assert ParseInteger(accStr).value == acc;
      }
      assert Amount(parts) == amount by {
        assert ParseBounded(amountStr, Int64Min, Int64Max).Parsed?;
      }
      HandleLocal(code, parts, line, cfg, accStr, ip);
    } else {
      HandleForeign(code, parts, line, cfg, accStr, ip);
    }
  }

  lemma RobberyLineTokens(target: int)
    ensures var line := "RP " + IntToString(target);
      !IsBlank(line) && Tokens(line) == ["RP", IntToString(target)]
  {
    var t := IntToString(target);
    var line := "RP " + t;
    assert line == Join(["RP", t], " ") by {
      assert ["RP", t][1..] == [t];
    }
    NoSpaceInNumber(target);
    assert line[|line| - 1] == t[|t| - 1];
    JoinedTokens(line, ["RP", t]);
  }

  /** "RP <target>" for a long target parses to that robbery. */
  lemma RobberyLineRoundTrip(target: int, cfg: AppConfig.Settings)
    requires Int64Min <= target <= Int64Max
    ensures Parse("RP " + IntToString(target), cfg) == Robbery(target)
  {
    var line := "RP " + IntToString(target);
    var parts := ["RP", IntToString(target)];
    RobberyLineTokens(target);
    ParseIntToString(target);
    RobberyTokens(target, IntToString(target), line, cfg, parts);
    ParseOfTokens(line, cfg, parts);
  }

  lemma RobberyTokens(target: int, t: string, line: string, cfg: AppConfig.Settings, parts: seq<string>)
    requires Int64Min <= target <= Int64Max && ParseInteger(t) == Some(target)
    requires parts == ["RP", t]
    ensures Caught(Dispatch(Upper(parts[0]), parts, line, cfg)) == Robbery(target)
  {
    assert Upper(parts[0]) == "RP";
    RobberyTarget(target, parts);
    DispatchRobbery(target, parts, line, cfg);
  }

  lemma RobberyTarget(target: int, parts: seq<string>)
    requires |parts| == 2 && Int64Min <= target <= Int64Max && ParseInteger(parts[1]) == Some(target)
    ensures RobberyCommand.Target(parts) == Success(target)
  {
  }

  lemma DispatchRobbery(target: int, parts: seq<string>, input: string, cfg: AppConfig.Settings)
    requires RobberyCommand.Target(parts) == Success(target)
    ensures Dispatch("RP", parts, input, cfg) == Success(Robbery(target))
  {
  }
}
