/**
 * The robbery planner: asks a fixed list of nodes for their total funds ("BA")
 * and client count ("BN"), ranks the nodes that answered by funds, highest
 * first, and takes nodes in that order until the funds taken reach the target.
 */
module RobberyCommand {
  import opened Wrappers
  import opened Text
  import AppConfig
  import Network

  /** One node that answered both queries. */
  datatype Candidate = Candidate(ip: string, money: int, clients: int)

  /** The two replies one node gave. */
  datatype PeerReply = PeerReply(ip: string, ba: string, bn: string)

  /** The constructor: the target is the second token, read by long.Parse. */
  function Target(parts: seq<string>): (r: Result<int, Fault>)
    ensures |parts| < 2 <==> r == Failure(TargetNeeded)
    ensures r.Success? <==> |parts| >= 2 && ParseBounded(parts[1], Int64Min, Int64Max).Parsed?
    ensures r.Success? ==> ParseInteger(parts[1]) == Some(r.value)
  {
    if |parts| < 2 then Failure(TargetNeeded) else ParseInt64(parts[1])
  }

  /** The nodes the planner asks: the node's own address, then the loopback address. */
  function PotentialVictims(cfg: AppConfig.Settings): seq<string> {
    [cfg.ipAddress, AppConfig.Loopback]
  }

  /** One node's replies as a candidate. None where the source skips the node:
      a reply without its prefix, a reply without a second token
      (IndexOutOfRangeException), or a second token long.Parse / int.Parse
      rejects; all of these are swallowed by the empty catch. */
  function ParseCandidate(ip: string, ba: string, bn: string): Option<Candidate> {
    if StartsWith(ba, "BA") && StartsWith(bn, "BN") then
      var baParts := Split(ba, ' ');
      var bnParts := Split(bn, ' ');
      if |baParts| < 2 || |bnParts| < 2 then None
      else match (ParseBounded(baParts[1], Int64Min, Int64Max), ParseBounded(bnParts[1], Int32Min, Int32Max))
        case (Parsed(money), Parsed(clients)) => Some(Candidate(ip, money, clients))
        case _ => None
    else None
  }

  /** A node becomes a candidate exactly when both replies carry their prefix
      and a second token that parses (a long for funds, an int for clients);
      the candidate holds the parsed values and the node's address. */
  lemma ParseCandidateExact(ip: string, ba: string, bn: string)
    ensures ParseCandidate(ip, ba, bn).Some? <==>
      && StartsWith(ba, "BA") && StartsWith(bn, "BN")
      && |Split(ba, ' ')| >= 2 && |Split(bn, ' ')| >= 2
      && ParseBounded(Split(ba, ' ')[1], Int64Min, Int64Max).Parsed?
      && ParseBounded(Split(bn, ' ')[1], Int32Min, Int32Max).Parsed?
    ensures ParseCandidate(ip, ba, bn).Some? ==>
      var c := ParseCandidate(ip, ba, bn).value;
      && c.ip == ip
      && ParseInteger(Split(ba, ' ')[1]) == Some(c.money) && Int64Min <= c.money <= Int64Max
      && ParseInteger(Split(bn, ' ')[1]) == Some(c.clients) && Int32Min <= c.clients <= Int32Max
  {
  }

  /** Both queries to one node. */
  function Query(ip: string, port: int, send: Network.Transport): PeerReply {
    PeerReply(ip, send(ip, port, "BA"), send(ip, port, "BN"))
  }

  /** The replies of every listed node, in list order. */
  function Queries(ips: seq<string>, port: int, send: Network.Transport): (rs: seq<PeerReply>)
    ensures |rs| == |ips|
    ensures forall i :: 0 <= i < |ips| ==> rs[i] == Query(ips[i], port, send)
  {
    if ips == [] then [] else Queries(ips[..|ips| - 1], port, send) + [Query(ips[|ips| - 1], port, send)]
  }

  /** The candidate one node's replies give, if any. */
  function Reading(r: PeerReply): Option<Candidate> {
    ParseCandidate(r.ip, r.ba, r.bn)
  }

  /** The reading of each reply, in reply order. */
  function Readings(rs: seq<PeerReply>): (os: seq<Option<Candidate>>)
    ensures |os| == |rs|
    ensures forall i :: 0 <= i < |rs| ==> os[i] == Reading(rs[i])
  {
    if rs == [] then [] else Readings(rs[..|rs| - 1]) + [Reading(rs[|rs| - 1])]
  }

  /** The values present in a sequence of options, in order. */
  function Present<T>(os: seq<Option<T>>): (vs: seq<T>)
    ensures |vs| <= |os|
  {
    if os == [] then []
    else
      var front := Present(os[..|os| - 1]);
      match os[|os| - 1]
      case Some(v) => front + [v]
      case None => front
  }

  /** The positions of the options that hold a value, in order. */
  function Positions<T>(os: seq<Option<T>>): (idx: seq<nat>)
    ensures |idx| <= |os|
  {
    if os == [] then []
    else if os[|os| - 1].Some? then Positions(os[..|os| - 1]) + [|os| - 1]
    else Positions(os[..|os| - 1])
  }

  /** Each listed position holds a value, and the positions strictly increase. */
  lemma {:induction false} PositionsSound<T>(os: seq<Option<T>>)
    ensures forall j :: 0 <= j < |Positions(os)| ==> Positions(os)[j] < |os| && os[Positions(os)[j]].Some?
    ensures forall j, l :: 0 <= j < l < |Positions(os)| ==> Positions(os)[j] < Positions(os)[l]
  {
    if os != [] {
      var front := os[..|os| - 1];
      PositionsSound(front);
      forall j | 0 <= j < |Positions(front)|
        ensures os[Positions(front)[j]] == front[Positions(front)[j]]
      {
      }
    }
  }

  /** Every position that holds a value is listed. */
  lemma {:induction false} PositionsComplete<T>(os: seq<Option<T>>, k: nat)
    requires k < |os| && os[k].Some?
    ensures k in Positions(os)
  {
    var front := os[..|os| - 1];
    if k < |front| {
      assert front[k] == os[k];
      PositionsComplete(front, k);
    }
  }

  /** The present values are the values at the listed positions, one each, in order. */
  lemma {:induction false} PresentAtPositions<T>(os: seq<Option<T>>)
    ensures |Present(os)| == |Positions(os)|
    ensures forall j :: 0 <= j < |Present(os)| ==> Positions(os)[j] < |os| && Some(Present(os)[j]) == os[Positions(os)[j]]
  {
    if os != [] {
      var front := os[..|os| - 1];
      PresentAtPositions(front);
      PositionsSound(front);
      forall j | 0 <= j < |Positions(front)|
        ensures os[Positions(front)[j]] == front[Positions(front)[j]]
      {
      }
    }
  }

  /** The candidates among the replies, in reply order. */
  function Candidates(rs: seq<PeerReply>): (cs: seq<Candidate>)
    ensures |cs| <= |rs|
  {
    Present(Readings(rs))
  }

  /** The candidates are the readings of the replies that parse, one per such
      reply and in reply order: there is a strictly increasing list of reply
      positions, covering every reply that parses, whose readings they are. */
  lemma CandidatesInOrder(rs: seq<PeerReply>)
    ensures var idx := Positions(Readings(rs));
      && |Candidates(rs)| == |idx|
      && (forall j, l :: 0 <= j < l < |idx| ==> idx[j] < idx[l])
      && (forall j :: 0 <= j < |idx| ==> idx[j] < |rs| && Reading(rs[idx[j]]) == Some(Candidates(rs)[j]))
      && (forall k :: 0 <= k < |rs| && Reading(rs[k]).Some? ==> k in idx)
  {
    var os := Readings(rs);
    PresentAtPositions(os);
    PositionsSound(os);
    forall k | 0 <= k < |rs| && Reading(rs[k]).Some?
      ensures k in Positions(os)
    {
      PositionsComplete(os, k);
    }
  }

  /** Every candidate comes from a reply that parses. */
  lemma CandidatesSound(rs: seq<PeerReply>, c: Candidate)
    requires c in Candidates(rs)
    ensures exists k :: 0 <= k < |rs| && Reading(rs[k]) == Some(c)
  {
    CandidatesInOrder(rs);
    var j :| 0 <= j < |Candidates(rs)| && Candidates(rs)[j] == c;
    var k := Positions(Readings(rs))[j];
    assert Reading(rs[k]) == Some(c);
  }

  /** Every reply that parses gives a candidate. */
  lemma CandidatesComplete(rs: seq<PeerReply>, k: nat)
    requires k < |rs| && Reading(rs[k]).Some?
    ensures Reading(rs[k]).value in Candidates(rs)
  {
    CandidatesInOrder(rs);
    var idx := Positions(Readings(rs));
    var j :| 0 <= j < |idx| && idx[j] == k;
    assert Candidates(rs)[j] == Reading(rs[k]).value;
  }

  /** The query loop: both requests to each listed node, collecting the nodes that answer well. */
  method Collect(ips: seq<string>, port: int, send: Network.Transport) returns (results: seq<Candidate>)
    ensures results == Candidates(Queries(ips, port, send))
  {
    results := [];
    var i := 0;
    while i < |ips|
      invariant 0 <= i <= |ips|
      invariant results == Candidates(Queries(ips[..i], port, send))
    {
      var ba := send(ips[i], port, "BA");
      var bn := send(ips[i], port, "BN");
      var rs := Queries(ips[..i + 1], port, send);
      assert ips[..i + 1][..i] == ips[..i];
      assert rs[..i] == Queries(ips[..i], port, send);
      assert Reading(rs[i]) == ParseCandidate(ips[i], ba, bn);
      assert Readings(rs)[..i] == Readings(rs[..i]);
      match ParseCandidate(ips[i], ba, bn) {
        case Some(c) => results := results + [c];
        case None =>
      }
      i := i + 1;
    }
    assert ips[..|ips|] == ips;
  }

  // ---------------------------------------------------------------------------
  // Ranking: by funds, richest first, as a stable sort
  // ---------------------------------------------------------------------------

  /** Puts c in front of the first element whose funds do not exceed its own. */
  function InsertByMoney(c: Candidate, s: seq<Candidate>): seq<Candidate> {
    if s == [] || s[0].money <= c.money then [c] + s
    else [s[0]] + InsertByMoney(c, s[1..])
  }

  /** Insertion sort, highest funds first; equal funds keep their order. */
  function SortByMoney(cs: seq<Candidate>): seq<Candidate> {
    if cs == [] then [] else InsertByMoney(cs[0], SortByMoney(cs[1..]))
  }

  predicate SortedByMoney(s: seq<Candidate>) {
    forall i, j :: 0 <= i < j < |s| ==> s[i].money >= s[j].money
  }

  /** The elements with funds m, in order. */
  function WithMoney(s: seq<Candidate>, m: int): seq<Candidate> {
    if s == [] then [] else (if s[0].money == m then [s[0]] else []) + WithMoney(s[1..], m)
  }

  lemma {:induction false} InsertByMoneyPerm(c: Candidate, s: seq<Candidate>)
    ensures multiset(InsertByMoney(c, s)) == multiset(s) + multiset{c}
  {
    if s != [] && s[0].money > c.money {
      InsertByMoneyPerm(c, s[1..]);
      assert s == [s[0]] + s[1..];
    }
  }

  lemma {:induction false} InsertByMoneySorted(c: Candidate, s: seq<Candidate>)
    requires SortedByMoney(s)
    ensures SortedByMoney(InsertByMoney(c, s))
  {
    if s != [] && s[0].money > c.money {
      var t := s[1..];
      var r := InsertByMoney(c, t);
      InsertByMoneySorted(c, t);
      InsertByMoneyPerm(c, t);
      forall j | 0 <= j < |r| ensures r[j].money <= s[0].money {
        assert r[j] in multiset(t) + multiset{c};
        if r[j] != c {
          var q :| 0 <= q < |t| && t[q] == r[j];
          assert s[q + 1] == t[q];
        }
      }
    }
  }

  lemma {:induction false} InsertByMoneyStable(c: Candidate, s: seq<Candidate>, m: int)
    ensures WithMoney(InsertByMoney(c, s), m) == WithMoney([c] + s, m)
  {
    if s != [] && s[0].money > c.money {
      var t := s[1..];
      var r := InsertByMoney(c, t);
      InsertByMoneyStable(c, t, m);
      assert ([c] + t)[1..] == t;
      assert ([c] + s)[1..] == s;
      assert ([s[0]] + r)[1..] == r;
      calc {
        WithMoney(InsertByMoney(c, s), m);
        (if s[0].money == m then [s[0]] else []) + WithMoney(r, m);
        (if s[0].money == m then [s[0]] else []) + ((if c.money == m then [c] else []) + WithMoney(t, m));
        { assert !(s[0].money == m && c.money == m); }
        (if c.money == m then [c] else []) + ((if s[0].money == m then [s[0]] else []) + WithMoney(t, m));
        WithMoney([c] + s, m);
      }
    }
  }

  /** The ranking is sorted by funds, highest first, holds exactly the
      candidates, and among candidates with equal funds keeps their order. */
  lemma {:induction false} SortByMoneyCorrect(cs: seq<Candidate>)
    ensures SortedByMoney(SortByMoney(cs))
    ensures multiset(SortByMoney(cs)) == multiset(cs)
    ensures forall m :: WithMoney(SortByMoney(cs), m) == WithMoney(cs, m)
  {
    if cs != [] {
      var rest := SortByMoney(cs[1..]);
      SortByMoneyCorrect(cs[1..]);
      InsertByMoneySorted(cs[0], rest);
      InsertByMoneyPerm(cs[0], rest);
      assert cs == [cs[0]] + cs[1..];
      forall m ensures WithMoney(SortByMoney(cs), m) == WithMoney(cs, m) {
        InsertByMoneyStable(cs[0], rest, m);
        assert ([cs[0]] + rest)[1..] == rest;
        assert ([cs[0]] + cs[1..])[1..] == cs[1..];
      }
    }
  }

  // ---------------------------------------------------------------------------
  // Selection: take nodes in rank order until the funds taken reach the target
  // ---------------------------------------------------------------------------

  function MoneySum(s: seq<Candidate>): int {
    if s == [] then 0 else MoneySum(s[..|s| - 1]) + s[|s| - 1].money
  }

  function ClientSum(s: seq<Candidate>): int {
    if s == [] then 0 else ClientSum(s[..|s| - 1]) + s[|s| - 1].clients
  }

  function Ips(s: seq<Candidate>): (r: seq<string>)
    ensures |r| == |s|
    ensures forall i :: 0 <= i < |s| ==> r[i] == s[i].ip
  {
    if s == [] then [] else Ips(s[..|s| - 1]) + [s[|s| - 1].ip]
  }

  /** The first k ranked nodes are what the loop takes: before each of them
      the funds taken were still below the target, and after them the target
      is reached or no node is left. */
  predicate IsGreedyPrefix(sorted: seq<Candidate>, target: int, k: nat) {
    && k <= |sorted|
    && (k == |sorted| || MoneySum(sorted[..k]) >= target)
    && forall j :: 0 <= j < k ==> MoneySum(sorted[..j]) < target
  }

  /** Only one prefix length stops the loop. */
  lemma GreedyPrefixUnique(sorted: seq<Candidate>, target: int, k1: nat, k2: nat)
    requires IsGreedyPrefix(sorted, target, k1) && IsGreedyPrefix(sorted, target, k2)
    ensures k1 == k2
  {
  }

  /** The first prefix length from j on at which the target is reached, or all of them. */
  function FirstReach(sorted: seq<Candidate>, target: int, j: nat): (k: nat)
    requires j <= |sorted|
    requires forall i :: 0 <= i < j ==> MoneySum(sorted[..i]) < target
    ensures IsGreedyPrefix(sorted, target, k)
    decreases |sorted| - j
  {
    if j == |sorted| || MoneySum(sorted[..j]) >= target then j
    else FirstReach(sorted, target, j + 1)
  }

  /** How many ranked nodes the loop takes. */
  function GreedyCount(sorted: seq<Candidate>, target: int): (k: nat)
    ensures IsGreedyPrefix(sorted, target, k)
  {
    FirstReach(sorted, target, 0)
  }

  /** The selection loop: the addresses taken, the funds taken and the clients
      of the nodes taken. A target of zero or less takes nothing. */
  method Select(sorted: seq<Candidate>, target: int) returns (targets: seq<string>, stolen: int, victims: int)
    ensures IsGreedyPrefix(sorted, target, |targets|)
    ensures targets == Ips(sorted[..|targets|])
    ensures stolen == MoneySum(sorted[..|targets|])
    ensures victims == ClientSum(sorted[..|targets|])
    ensures target <= 0 ==> targets == []
  {
    stolen := 0;
    victims := 0;
    targets := [];
    var i := 0;
    while i < |sorted|
      invariant 0 <= i <= |sorted| && |targets| == i
      invariant forall j :: 0 <= j < i ==> MoneySum(sorted[..j]) < target
      invariant targets == Ips(sorted[..i])
      invariant stolen == MoneySum(sorted[..i]) && victims == ClientSum(sorted[..i])
    {
      if stolen >= target {
        break;
      }
      assert sorted[..i + 1][..i] == sorted[..i];
      stolen := stolen + sorted[i].money;
      victims := victims + sorted[i].clients;
      targets := targets + [sorted[i].ip];
      i := i + 1;
    }
  }

  /** The reply line: the target, the addresses taken in selection order and
      the total of their clients. */
  function Reply(target: int, targets: seq<string>, victims: int): (r: string)
    ensures StartsWith(r, "RP ")
  {
    "RP To get " + IntToString(target) + ", rob: " + Join(targets, ", ") + ". Total victims: " + IntToString(victims)
  }

  /** What Execute answers, given what the nodes reply. */
  function Plan(target: int, cfg: AppConfig.Settings, send: Network.Transport): string {
    var sorted := SortByMoney(Candidates(Queries(PotentialVictims(cfg), cfg.port, send)));
    var k := GreedyCount(sorted, target);
    Reply(target, Ips(sorted[..k]), ClientSum(sorted[..k]))
  }

  /** Execute: query, rank, select, answer. */
  method Execute(target: int, cfg: AppConfig.Settings, send: Network.Transport) returns (response: string)
    ensures response == Plan(target, cfg, send)
  {
    var results := Collect(PotentialVictims(cfg), cfg.port, send);
    var sorted := SortByMoney(results);
    var targets, stolen, victims := Select(sorted, target);
    GreedyPrefixUnique(sorted, target, |targets|, GreedyCount(sorted, target));
    response := Reply(target, targets, victims);
  }

  /** The worked example of the planner: nodes with 100, 50 and 30 and a target
      of 120 are ranked 100, 50, 30 and the first two are taken, 150 in all. */
  lemma ExampleSelection()
    ensures var cs := [Candidate("10.0.0.3", 30, 1), Candidate("10.0.0.1", 100, 2), Candidate("10.0.0.2", 50, 3)];
      var sorted := SortByMoney(cs);
      && sorted == [cs[1], cs[2], cs[0]]
      && GreedyCount(sorted, 120) == 2
      && MoneySum(sorted[..2]) == 150
      && Ips(sorted[..2]) == ["10.0.0.1", "10.0.0.2"]
  {
    var cs := [Candidate("10.0.0.3", 30, 1), Candidate("10.0.0.1", 100, 2), Candidate("10.0.0.2", 50, 3)];
    var sorted := SortByMoney(cs);
    assert sorted == [cs[1], cs[2], cs[0]];
    GreedyPrefixUnique(sorted, 120, 2, GreedyCount(sorted, 120));
  }

  /** Nodes are not filtered by funds: a node reporting 0 is a candidate and
      is taken whenever the target is not yet reached. */
  lemma ZeroFundsNodeIsTaken(ip: string, clients: int)
    ensures GreedyCount([Candidate(ip, 0, clients)], 1) == 1
    ensures ClientSum([Candidate(ip, 0, clients)][..1]) == clients
  {
    var s := [Candidate(ip, 0, clients)];
    assert s[..0] == [] && s[..1] == s;
    GreedyPrefixUnique(s, 1, 1, GreedyCount(s, 1));
  }
}
