/** The two tables as maps, the queries the repositories answer, and the
    consistency properties the lifecycle operations are meant to keep. */
module Store {
  import opened Wrappers
  import opened Entities

  /** Customer rows keyed by customer id. */
  type CustomerTable = map<nat, Customer>

  /** Account rows keyed by account number. */
  type AccountTable = map<nat, Account>

  /** What a derived `Optional` query sees: no row, one row, or several rows. */
  datatype Lookup<+T> = NoMatch | Match(value: T) | ManyMatches

  /** Every row is stored under its own id, as a JPA repository keeps it. */
  ghost predicate KeysConsistent(customers: CustomerTable, accounts: AccountTable) {
    && (forall id :: id in customers ==> customers[id].customerId == id)
    && (forall n :: n in accounts ==> accounts[n].accountNumber == n)
  }

  /** The ids of the customers `findByMobileNumber(mobileNumber)` matches. */
  function CustomerIdsWithMobile(customers: CustomerTable, mobileNumber: string): set<nat> {
    set id | id in customers && customers[id].profile.mobileNumber == mobileNumber
  }

  /** The numbers of the accounts `findByCustomerId` and `deleteByCustomerId` match. */
  function AccountNumbersOf(accounts: AccountTable, customerId: nat): set<nat> {
    set n | n in accounts && accounts[n].customerId == customerId
  }

  /** `deleteByCustomerId`: the table without the accounts of `customerId`. */
  function WithoutAccountsOf(accounts: AccountTable, customerId: nat): (r: AccountTable)
    ensures r.Keys == accounts.Keys - AccountNumbersOf(accounts, customerId)
    ensures forall n :: n in r ==> r[n] == accounts[n] && r[n].customerId != customerId
  {
    map n | n in accounts && accounts[n].customerId != customerId :: accounts[n]
  }

  /** No two customers share a mobile number. */
  ghost predicate MobileNumbersUnique(customers: CustomerTable) {
    forall i, j ::
      (i in customers && j in customers &&
       customers[i].profile.mobileNumber == customers[j].profile.mobileNumber) ==> i == j
  }

  /** Every account belongs to a stored customer. */
  ghost predicate AccountsReferenceCustomers(customers: CustomerTable, accounts: AccountTable) {
    forall n :: n in accounts ==> accounts[n].customerId in customers
  }

  /** No customer owns two accounts. */
  ghost predicate AtMostOneAccountEach(accounts: AccountTable) {
    forall m, n :: m in accounts && n in accounts && accounts[m].customerId == accounts[n].customerId ==> m == n
  }

  ghost predicate Invariant(customers: CustomerTable, accounts: AccountTable) {
    && MobileNumbersUnique(customers)
    && AccountsReferenceCustomers(customers, accounts)
    && AtMostOneAccountEach(accounts)
  }

  /** Some element of a non-empty set; the only one when the set is a singleton. */
  ghost function Pick(s: set<nat>): (x: nat)
    requires s != {}
    ensures x in s
  {
    var x :| x in s; x
  }

  lemma SingletonPick(s: set<nat>, x: nat)
    requires |s| == 1 && x in s
    ensures s == {x} && Pick(s) == x
  {
    assert |s - {x}| == 0;
  }

  lemma AtMostOneWithMobile(customers: CustomerTable, mobileNumber: string)
    requires MobileNumbersUnique(customers)
    ensures |CustomerIdsWithMobile(customers, mobileNumber)| <= 1
  {
    var ids := CustomerIdsWithMobile(customers, mobileNumber);
    if ids != {} {
      var x :| x in ids;
      assert ids == {x};
    }
  }

  lemma AtMostOneAccountOf(accounts: AccountTable, customerId: nat)
    requires AtMostOneAccountEach(accounts)
    ensures |AccountNumbersOf(accounts, customerId)| <= 1
  {
    var ns := AccountNumbersOf(accounts, customerId);
    if ns != {} {
      var x :| x in ns;
      assert ns == {x};
    }
  }

  /** A finite set of ids has a strict upper bound, so the store can always
      assign an id that is not yet in use. */
  lemma {:induction false} UpperBound(s: set<nat>) returns (b: nat)
    ensures forall x :: x in s ==> x < b
    decreases |s|
  {
    if s == {} {
      b := 0;
    } else {
      var x :| x in s;
      var b0 := UpperBound(s - {x});
      assert forall y :: y in s ==> y == x || y in s - {x};
      b := if x < b0 then b0 else x + 1;
    }
  }
}
