/** The double-entry account book of the ledger CLI (src/cli/cyborg-ledger.js): an
    account list and a journal, both appended in place, and account balances
    updated in place by a posting. Loading and saving the JSON files and emitting
    the telemetry event are not modelled; the ISO clock reading is a parameter.
    An account is identified by its position in the list, which stands for the
    object reference the source keeps. */
module LedgerBook {
  import opened Wrappers

  datatype Account = Account(id: string, name: string, currency: string, balance: int)

  datatype JournalRecord = JournalRecord(id: string, timestamp: string, debit: string, credit: string,
                                         amount: int, currency: string, meta: map<string, string>)

  /** `accounts.find(a => a.id === id)`, as the position of the first match. */
  function FindIndex(accounts: seq<Account>, id: string): (r: Option<nat>)
    ensures r.None? <==> forall i :: 0 <= i < |accounts| ==> accounts[i].id != id
    ensures r.Some? ==> r.value < |accounts| && accounts[r.value].id == id
    ensures r.Some? ==> forall j :: 0 <= j < r.value ==> accounts[j].id != id
  {
    if accounts == [] then None
    else if accounts[0].id == id then Some(0)
    else match FindIndex(accounts[1..], id)
      case None => None
      case Some(k) => Some(k + 1)
  }

  /** Appending accounts after a match does not move the match. */
  lemma {:induction false} FindIndexExtend(accounts: seq<Account>, more: seq<Account>, id: string)
    requires FindIndex(accounts, id).Some?
    ensures FindIndex(accounts + more, id) == FindIndex(accounts, id)
  {
    assert (accounts + more)[0] == accounts[0];
    if accounts[0].id != id {
      assert (accounts + more)[1..] == accounts[1..] + more;
      FindIndexExtend(accounts[1..], more, id);
    }
  }

  predicate UniqueIds(accounts: seq<Account>) {
    forall i, j :: 0 <= i < j < |accounts| ==> accounts[i].id != accounts[j].id
  }

  /** The balance of account `id`, 0 for an account not in the list. */
  function BalanceOf(accounts: seq<Account>, id: string): int {
    match FindIndex(accounts, id)
    case None => 0
    case Some(i) => accounts[i].balance
  }

  /** The sum of all balances. */
  function Total(accounts: seq<Account>): int {
    if accounts == [] then 0 else Total(accounts[..|accounts| - 1]) + accounts[|accounts| - 1].balance
  }

  /** The account list after `ensureAccount(id, name, currency)`: unchanged when
      `id` is present, otherwise extended by one account with balance 0; either
      way the total and unique ids are kept. */
  function Ensured(accounts: seq<Account>, id: string, name: string, currency: string): (r: seq<Account>)
    ensures |accounts| <= |r| <= |accounts| + 1 && r[..|accounts|] == accounts
    ensures FindIndex(r, id).Some?
    ensures FindIndex(accounts, id).Some? ==> r == accounts
    ensures FindIndex(accounts, id).None? ==> r[|accounts|] == Account(id, name, currency, 0)
    ensures forall i :: |accounts| <= i < |r| ==> r[i].balance == 0
    ensures Total(r) == Total(accounts)
    ensures UniqueIds(accounts) ==> UniqueIds(r)
  {
    if FindIndex(accounts, id).Some? then accounts
    else
      var r := accounts + [Account(id, name, currency, 0)];
      assert r[..|accounts|] == accounts;
      assert r[|accounts|].id == id;
      r
  }

  /** Adds `delta` to the balance at position `i`. */
  function Adjust(accounts: seq<Account>, i: nat, delta: int): (r: seq<Account>)
    requires i < |accounts|
    ensures |r| == |accounts|
    ensures forall j :: 0 <= j < |r| ==> r[j].id == accounts[j].id
  {
    accounts[i := accounts[i].(balance := accounts[i].balance + delta)]
  }

  /** Adjusting one balance changes the total by exactly that amount. */
  lemma {:induction false} AdjustTotal(accounts: seq<Account>, i: nat, delta: int)
    requires i < |accounts|
    ensures Total(Adjust(accounts, i, delta)) == Total(accounts) + delta
    decreases |accounts|
  {
    var r := Adjust(accounts, i, delta);
    var n := |accounts| - 1;
    if i < n {
      assert r[..n] == Adjust(accounts[..n], i, delta);
      AdjustTotal(accounts[..n], i, delta);
    } else {
      assert r[..n] == accounts[..n];
    }
  }

  /** Both accounts of a posting ensured, the debit account first: the list
      grows only by zero-balance accounts, and the total and unique ids are kept. */
  function EnsuredBoth(accounts: seq<Account>, debit: string, credit: string, currency: string): (r: seq<Account>)
    ensures |accounts| <= |r| && r[..|accounts|] == accounts
    ensures forall i :: |accounts| <= i < |r| ==> r[i].balance == 0
    ensures FindIndex(r, debit).Some? && FindIndex(r, credit).Some?
    ensures Total(r) == Total(accounts)
    ensures UniqueIds(accounts) ==> UniqueIds(r)
  {
    var a1 := Ensured(accounts, debit, debit, currency);
    var a2 := Ensured(a1, credit, credit, currency);
    EnsuredKeeps(a1, credit, credit, currency, debit);
    ExtendedTwice(accounts, a1, a2);
    a2
  }

  /** Two extensions by zero-balance accounts make one. */
  lemma ExtendedTwice(accounts: seq<Account>, a1: seq<Account>, a2: seq<Account>)
    requires |accounts| <= |a1| <= |a2| && a1[..|accounts|] == accounts && a2[..|a1|] == a1
    requires forall i :: |accounts| <= i < |a1| ==> a1[i].balance == 0
    requires forall i :: |a1| <= i < |a2| ==> a2[i].balance == 0
    ensures a2[..|accounts|] == accounts
    ensures forall i :: |accounts| <= i < |a2| ==> a2[i].balance == 0
  {
    assert a2[..|accounts|] == a2[..|a1|][..|accounts|];
    assert forall i :: |accounts| <= i < |a1| ==> a2[i] == a2[..|a1|][i];
  }

  /** Ensuring one account does not move the match of another id. */
  lemma EnsuredKeeps(accounts: seq<Account>, id: string, name: string, currency: string, other: string)
    requires FindIndex(accounts, other).Some?
    ensures FindIndex(Ensured(accounts, id, name, currency), other) == FindIndex(accounts, other)
  {
    if FindIndex(accounts, id).None? {
      FindIndexExtend(accounts, [Account(id, name, currency, 0)], other);
    }
  }

  /** Moves `amount` to position `d` from position `c`. */
  function Transfer(accounts: seq<Account>, d: nat, c: nat, amount: int): (r: seq<Account>)
    requires d < |accounts| && c < |accounts|
    ensures |r| == |accounts|
    ensures forall j :: 0 <= j < |r| ==> r[j].id == accounts[j].id
    ensures Total(r) == Total(accounts)
  {
    var t := Adjust(accounts, d, amount);
    AdjustTotal(accounts, d, amount);
    AdjustTotal(t, c, -amount);
    Adjust(t, c, -amount)
  }

  /** The account list after `postJournalEntry`: both accounts ensured (named by
      their ids), then the debit balance raised and the credit balance lowered by
      `amount`, through the accounts `ensureAccount` returned. A posting moves
      money between accounts and creates none: the total of all balances is kept. */
  function Posting(accounts: seq<Account>, debit: string, credit: string, amount: int, currency: string): (r: seq<Account>)
    ensures Total(r) == Total(accounts)
  {
    var a := EnsuredBoth(accounts, debit, credit, currency);
    Transfer(a, FindIndex(a, debit).value, FindIndex(a, credit).value, amount)
  }

  /** With unique ids, a transfer between the positions of `debit` and `credit`
      changes exactly those two balances. */
  lemma TransferBalances(a: seq<Account>, debit: string, credit: string, amount: int)
    requires UniqueIds(a) && FindIndex(a, debit).Some? && FindIndex(a, credit).Some?
    ensures var r := Transfer(a, FindIndex(a, debit).value, FindIndex(a, credit).value, amount);
      && UniqueIds(r)
      && BalanceOf(r, debit) == BalanceOf(a, debit) + (if debit == credit then 0 else amount)
      && BalanceOf(r, credit) == BalanceOf(a, credit) - (if debit == credit then 0 else amount)
      && (forall i :: 0 <= i < |a| && a[i].id != debit && a[i].id != credit ==> r[i] == a[i])
  {
    var d := FindIndex(a, debit).value;
    var c := FindIndex(a, credit).value;
    var r := Transfer(a, d, c, amount);
    TransferAt(a, d, c, amount);
    assert UniqueIds(r) by {
      forall i, j | 0 <= i < j < |r| ensures r[i].id != r[j].id {
        assert r[i].id == a[i].id && r[j].id == a[j].id;
      }
    }
    assert c == d <==> debit == credit;
    UniqueIndex(r, d, debit);
    UniqueIndex(r, c, credit);
    forall i | 0 <= i < |a| && a[i].id != debit && a[i].id != credit
      ensures r[i] == a[i]
    {
      assert i != d && i != c;
    }
  }

  /** A transfer changes the two balances at `d` and `c` and no other entry. */
  lemma TransferAt(a: seq<Account>, d: nat, c: nat, amount: int)
    requires d < |a| && c < |a|
    ensures var r := Transfer(a, d, c, amount);
      && (forall i :: 0 <= i < |a| && i != d && i != c ==> r[i] == a[i])
      && (d != c ==> r[d].balance == a[d].balance + amount && r[c].balance == a[c].balance - amount)
      && (d == c ==> r[d].balance == a[d].balance)
  {
  }

  /** With unique ids, a posting raises the debit balance and lowers the credit
      balance by `amount` (a posting to one account leaves it as it was), leaves
      every other account as it was, and keeps the ids unique. */
  lemma PostingBalances(accounts: seq<Account>, debit: string, credit: string, amount: int, currency: string)
    requires UniqueIds(accounts)
    ensures var r := Posting(accounts, debit, credit, amount, currency);
      && UniqueIds(r)
      && BalanceOf(r, debit) == BalanceOf(accounts, debit) + (if debit == credit then 0 else amount)
      && BalanceOf(r, credit) == BalanceOf(accounts, credit) - (if debit == credit then 0 else amount)
      && (forall i :: 0 <= i < |accounts| && accounts[i].id != debit && accounts[i].id != credit ==> r[i] == accounts[i])
  {
    var a := EnsuredBoth(accounts, debit, credit, currency);
    TransferBalances(a, debit, credit, amount);
    UniqueBalance(accounts, a, debit);
    UniqueBalance(accounts, a, credit);
    forall i | 0 <= i < |accounts|
      ensures a[i] == accounts[i]
    {
      assert a[..|accounts|][i] == a[i];
    }
  }

  /** With unique ids, the account holding `id` is the match of `find`. */
  lemma UniqueIndex(accounts: seq<Account>, i: nat, id: string)
    requires UniqueIds(accounts) && i < |accounts| && accounts[i].id == id
    ensures FindIndex(accounts, id) == Some(i)
  {
  }

  /** Ensuring accounts changes no balance the list already had, and new ones are 0. */
  lemma UniqueBalance(accounts: seq<Account>, extended: seq<Account>, id: string)
    requires UniqueIds(extended) && |accounts| <= |extended| && extended[..|accounts|] == accounts
    requires forall i :: |accounts| <= i < |extended| ==> extended[i].balance == 0
    ensures BalanceOf(extended, id) == BalanceOf(accounts, id)
  {
    var ia := FindIndex(accounts, id);
    if ia.Some? {
      var i := ia.value;
      assert extended[i] == extended[..|accounts|][i];
      UniqueIndex(extended, i, id);
    } else {
      forall j | 0 <= j < |accounts|
        ensures extended[j].id != id
      {
        assert extended[j] == extended[..|accounts|][j];
      }
    }
  }

  /** `ts.replace(/[:.]/g, "-")` */
  function Dashed(ts: string): (r: string)
    ensures |r| == |ts|
    ensures forall i :: 0 <= i < |ts| ==> r[i] == (if ts[i] == ':' || ts[i] == '.' then '-' else ts[i])
  {
    if ts == [] then [] else [if ts[0] == ':' || ts[0] == '.' then '-' else ts[0]] + Dashed(ts[1..])
  }

  /** The journal record id for clock reading `ts`: no colon or dot survives. */
  function JournalId(ts: string): (id: string)
    ensures |id| == |ts| + 4 && id[..4] == "JNL-"
    ensures forall i :: 4 <= i < |id| ==> id[i] != ':' && id[i] != '.'
  {
    "JNL-" + Dashed(ts)
  }

  class Book {
    var accounts: seq<Account>
    var journal: seq<JournalRecord>

    constructor (accounts: seq<Account>, journal: seq<JournalRecord>)
      ensures this.accounts == accounts && this.journal == journal
    {
      this.accounts := accounts;
      this.journal := journal;
    }

    /** `findAccount(id)` */
    function FindAccount(id: string): (r: Option<Account>)
      reads this
      ensures r.Some? <==> exists i :: 0 <= i < |accounts| && accounts[i].id == id
      ensures r.Some? ==> r.value in accounts && r.value.id == id
      ensures r.Some? ==> exists i :: (0 <= i < |accounts| && accounts[i] == r.value &&
        forall j :: 0 <= j < i ==> accounts[j].id != id)
    {
      match FindIndex(accounts, id)
      case None => None
      case Some(i) => Some(accounts[i])
    }

    /** `ensureAccount(id, name, currency)`: the position of the account with that
        id, appending a new zero-balance account when there is none. */
    method EnsureAccount(id: string, name: string, currency: string) returns (index: nat)
      modifies this
      ensures accounts == Ensured(old(accounts), id, name, currency)
      ensures FindIndex(accounts, id) == Some(index)
      ensures journal == old(journal)
    {
      var found := FindIndex(accounts, id);
      if found.None? {
        accounts := accounts + [Account(id, name, currency, 0)];
        index := |accounts| - 1;
      } else {
        index := found.value;
      }
    }

    /** `postJournalEntry({ debit, credit, amount, currency, meta })` at ISO clock
        reading `ts`: records the journal entry first, then ensures both accounts
        and moves `amount` from credit to debit. */
    method PostJournalEntry(debit: string, credit: string, amount: int, currency: string, meta: map<string, string>, ts: string)
      modifies this
      ensures journal == old(journal) + [JournalRecord(JournalId(ts), ts, debit, credit, amount, currency, meta)]
      ensures accounts == Posting(old(accounts), debit, credit, amount, currency)
    {
      journal := journal + [JournalRecord(JournalId(ts), ts, debit, credit, amount, currency, meta)];
      var debitAcc := EnsureAccount(debit, debit, currency);
      ghost var a1 := accounts;
      var creditAcc := EnsureAccount(credit, credit, currency);
      FindIndexExtend(a1, accounts[|a1|..], debit);
      assert accounts == a1 + accounts[|a1|..];
      accounts := Transfer(accounts, debitAcc, creditAcc, amount);
    }
  }
}
