/**
 * The node's ledger object. Its account map is changed in place; every
 * successful change hands the new map to storage and notifies the attached
 * observers. Storage and observers are outside this model: `saves` records
 * every map handed to IStorage.Save and `updates` every IBankObserver.Update
 * call, oldest first.
 */
module Bank {
  import opened Wrappers
  import opened Ledger
  import Localization

  /** An attached observer, compared by identity. */
  datatype ObserverRef = ObserverRef(id: nat)

  /** One notification of an observer with the total funds and the client count. */
  datatype Update = Update(observer: ObserverRef, totalFunds: int, totalClients: int)

  /** What a void ledger operation does: return normally, or throw with a message. */
  datatype Outcome = Done | Failed(message: string)

  /** The observer list after Attach(o): unchanged if o is already there, else o appended. */
  function Attached(observers: seq<ObserverRef>, o: ObserverRef): seq<ObserverRef> {
    if o in observers then observers else observers + [o]
  }

  predicate NoDuplicates(observers: seq<ObserverRef>) {
    forall i, j :: 0 <= i < j < |observers| ==> observers[i] != observers[j]
  }

  /** Attaching the same observer twice is the same as attaching it once. */
  lemma AttachIdempotent(observers: seq<ObserverRef>, o: ObserverRef)
    ensures Attached(Attached(observers, o), o) == Attached(observers, o)
  {
  }

  /** Attach keeps the list free of duplicates, adds o, and keeps everyone else. */
  lemma AttachKeepsDistinct(observers: seq<ObserverRef>, o: ObserverRef)
    requires NoDuplicates(observers)
    ensures NoDuplicates(Attached(observers, o))
    ensures forall p :: p in Attached(observers, o) <==> p in observers || p == o
  {
  }

  /** The calls one Notify makes: one Update per attached observer, in attachment order. */
  function Broadcast(observers: seq<ObserverRef>, funds: int, clients: int): (r: seq<Update>)
    ensures |r| == |observers|
    ensures forall i :: 0 <= i < |observers| ==> r[i] == Update(observers[i], funds, clients)
  {
    if observers == [] then []
    else Broadcast(observers[..|observers| - 1], funds, clients) + [Update(observers[|observers| - 1], funds, clients)]
  }

  /** Every message the ledger throws has a translation in both languages, so
      Localization.Get never falls back to the bare key for it. */
  lemma LedgerMessagesTranslated(e: LedgerError, lang: string)
    requires lang in Localization.Dictionary
    ensures Localization.HasEntry(lang, ErrorKey(e))
    ensures Localization.Dictionary[lang][ErrorKey(e)] != ErrorKey(e)
  {
  }

  class BankEngine {
    var accounts: Accounts
    var observers: seq<ObserverRef>
    var isOnline: bool
    var saves: seq<Accounts>
    var updates: seq<Update>
    /** The static Localization the error messages are read from. */
    const loc: Localization.Localizer

    /** The engine starts from whatever storage loaded, offline and with no observers. */
    constructor (loaded: Accounts, loc: Localization.Localizer)
      ensures accounts == loaded && observers == [] && !isOnline
      ensures saves == [] && updates == [] && this.loc == loc
    {
      accounts := loaded;
      observers := [];
      isOnline := false;
      saves := [];
      updates := [];
      this.loc := loc;
    }

    /** The localized message a ledger failure is thrown with. */
    function Message(e: LedgerError): string
      reads loc
    {
      loc.Get(ErrorKey(e))
    }

    /** Attach: adds the observer unless it is already attached. */
    method Attach(o: ObserverRef)
      modifies this
      ensures observers == Attached(old(observers), o)
      ensures accounts == old(accounts) && isOnline == old(isOnline)
      ensures saves == old(saves) && updates == old(updates)
    {
      if o !in observers {
        observers := observers + [o];
      }
    }

    /** GetTotalFunds: the sum of all balances, added up one account at a time. */
    method GetTotalFunds() returns (total: int)
      ensures total == TotalFunds(accounts)
    {
      var rest := accounts;
      total := 0;
      while rest != map[]
        invariant total + TotalFunds(rest) == TotalFunds(accounts)
        decreases |rest|
      {
        NonEmptyHasAccount(rest);
        var id :| id in rest;
        TotalFundsPick(rest, id);
        assert (rest - {id}).Keys == rest.Keys - {id};
        total := total + rest[id];
        rest := rest - {id};
      }
    }

    /** GetClientCount: the number of accounts. */
    method GetClientCount() returns (count: int)
      ensures count == |accounts|
    {
      count := |accounts|;
    }

    /** GetBalance: the stored balance, or the "ErrAccount" message for a missing account. */
    method GetBalance(id: int) returns (r: Result<int, string>)
      ensures match Ledger.Balance(accounts, id)
        case Success(b) => r == Success(b)
        case Failure(e) => r == Failure(Message(e))
    {
      if id !in accounts {
        return Failure(loc.Get("ErrAccount"));
      }
      r := Success(accounts[id]);
    }

    /** Notify: computes the totals once and calls every observer with them. */
    method Notify()
      modifies this
      ensures updates == old(updates) + Broadcast(observers, TotalFunds(accounts), |accounts|)
      ensures accounts == old(accounts) && observers == old(observers)
      ensures isOnline == old(isOnline) && saves == old(saves)
    {
      var funds := GetTotalFunds();
      var clients := GetClientCount();
      var i := 0;
      while i < |observers|
        invariant 0 <= i <= |observers|
        invariant updates == old(updates) + Broadcast(observers[..i], funds, clients)
        invariant accounts == old(accounts) && observers == old(observers)
        invariant isOnline == old(isOnline) && saves == old(saves)
      {
        assert observers[..i + 1][..i] == observers[..i];
        updates := updates + [Update(observers[i], funds, clients)];
        i := i + 1;
      }
      assert observers[..|observers|] == observers;
    }

    /** SetStatus: records whether the node is online, then notifies. */
    method SetStatus(online: bool)
      modifies this
      ensures isOnline == online
      ensures updates == old(updates) + Broadcast(observers, TotalFunds(accounts), |accounts|)
      ensures accounts == old(accounts) && observers == old(observers) && saves == old(saves)
    {
      isOnline := online;
      Notify();
    }

    /** Hands the current account map to storage. */
    method Save()
      modifies this
      ensures saves == old(saves) + [accounts]
      ensures accounts == old(accounts) && observers == old(observers)
      ensures isOnline == old(isOnline) && updates == old(updates)
    {
      saves := saves + [accounts];
    }

    /** CreateAccount: an unused id of the creation range (the net effect of the
        random retry loop) is inserted with balance 0, saved and notified. */
    method CreateAccount() returns (id: int)
      requires HasFreeId(accounts)
      modifies this
      ensures InIdRange(id) && id !in old(accounts)
      ensures accounts == old(accounts)[id := 0]
      ensures saves == old(saves) + [accounts]
      ensures updates == old(updates) + Broadcast(observers, TotalFunds(accounts), |accounts|)
      ensures observers == old(observers) && isOnline == old(isOnline)
      ensures NonNegative(old(accounts)) ==> NonNegative(accounts)
    {
      id :| MinId <= id <= MaxId && id !in accounts;
      accounts := accounts[id := 0];
      Save();
      Notify();
    }

    /** Deposit: on success the balance grows by the amount and the map is
        saved and notified; a failure throws its message and changes nothing. */
    method Deposit(id: int, amount: int) returns (outcome: Outcome)
      modifies this
      ensures match Ledger.Deposit(old(accounts), id, amount)
        case Success(m) =>
          && outcome == Done && accounts == m && saves == old(saves) + [m]
          && updates == old(updates) + Broadcast(observers, TotalFunds(m), |m|)
        case Failure(e) =>
          && outcome == Failed(Message(e)) && accounts == old(accounts)
          && saves == old(saves) && updates == old(updates)
      ensures observers == old(observers) && isOnline == old(isOnline)
      ensures NonNegative(old(accounts)) ==> NonNegative(accounts)
    {
      if id !in accounts {
        return Failed(loc.Get("ErrAccount"));
      }
      if amount < 0 {
        return Failed(loc.Get("ErrFormat"));
      }
      accounts := accounts[id := accounts[id] + amount];
      Save();
      Notify();
      outcome := Done;
    }

    /** Withdraw: on success the balance shrinks by the amount and the map is
        saved and notified; a failure throws its message and changes nothing. */
    method Withdraw(id: int, amount: int) returns (outcome: Outcome)
      modifies this
      ensures match Ledger.Withdraw(old(accounts), id, amount)
        case Success(m) =>
          && outcome == Done && accounts == m && saves == old(saves) + [m]
          && updates == old(updates) + Broadcast(observers, TotalFunds(m), |m|)
        case Failure(e) =>
          && outcome == Failed(Message(e)) && accounts == old(accounts)
          && saves == old(saves) && updates == old(updates)
      ensures observers == old(observers) && isOnline == old(isOnline)
      ensures NonNegative(old(accounts)) ==> NonNegative(accounts)
    {
      if id !in accounts {
        return Failed(loc.Get("ErrAccount"));
      }
      if accounts[id] < amount {
        return Failed(loc.Get("ErrFunds"));
      }
      accounts := accounts[id := accounts[id] - amount];
      Save();
      Notify();
      outcome := Done;
    }

    /** RemoveAccount: on success the empty account is gone and the map is
        saved and notified; a failure throws its message and changes nothing. */
    method RemoveAccount(id: int) returns (outcome: Outcome)
      modifies this
      ensures match Ledger.Remove(old(accounts), id)
        case Success(m) =>
          && outcome == Done && accounts == m && saves == old(saves) + [m]
          && updates == old(updates) + Broadcast(observers, TotalFunds(m), |m|)
        case Failure(e) =>
          && outcome == Failed(Message(e)) && accounts == old(accounts)
          && saves == old(saves) && updates == old(updates)
      ensures observers == old(observers) && isOnline == old(isOnline)
      ensures NonNegative(old(accounts)) ==> NonNegative(accounts)
    {
      if id !in accounts {
        return Failed(loc.Get("ErrAccount"));
      }
      if accounts[id] != 0 {
        return Failed(loc.Get("ErrNotEmpty"));
      }
      accounts := accounts - {id};
      Save();
      Notify();
      outcome := Done;
    }
  }
}
