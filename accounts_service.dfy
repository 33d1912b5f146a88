/** The account lifecycle service: create, fetch, update and delete over the
    customer and account repositories. */
module AccountsService {
  import opened Wrappers
  import opened Entities
  import opened Store
  import opened Text

  /** The offset and the `nextInt` bound of a generated account number. */
  const ACCOUNT_NUMBER_BASE: nat := 1000000000
  const RANDOM_BOUND: nat := 900000000
  const LARGEST_ACCOUNT_NUMBER: nat := ACCOUNT_NUMBER_BASE + RANDOM_BOUND - 1

  const ALREADY_REGISTERED: string := "Customer already registered with given mobile number: "

  /** The message of the `CustomerAlreadyExistsException` raised for `mobileNumber`. */
  function AlreadyRegisteredMessage(mobileNumber: string): (m: string)
    ensures |m| == |ALREADY_REGISTERED| + |mobileNumber|
    ensures m[..|ALREADY_REGISTERED|] == ALREADY_REGISTERED
    ensures m[|ALREADY_REGISTERED|..] == mobileNumber
  {
    ALREADY_REGISTERED + mobileNumber
  }

  /** The account number made from a draw of `nextInt(RANDOM_BOUND)`. */
  function AccountNumberFor(random: nat): (n: nat)
    requires random < RANDOM_BOUND
    ensures ACCOUNT_NUMBER_BASE <= n <= LARGEST_ACCOUNT_NUMBER
    ensures n - ACCOUNT_NUMBER_BASE == random
  {
    ACCOUNT_NUMBER_BASE + random
  }

  /** Every number of the range is the number of some draw, the largest included. */
  lemma AccountNumberRangeReached(n: nat)
    requires ACCOUNT_NUMBER_BASE <= n <= LARGEST_ACCOUNT_NUMBER
    ensures n - ACCOUNT_NUMBER_BASE < RANDOM_BOUND && AccountNumberFor(n - ACCOUNT_NUMBER_BASE) == n
  {
  }

  /** Every generated account number is written with ten decimal digits. */
  lemma AccountNumberHasTenDigits(random: nat)
    requires random < RANDOM_BOUND
    ensures |DecimalString(AccountNumberFor(random))| == 10
  {
    assert Pow10(9) == ACCOUNT_NUMBER_BASE;
    assert Pow10(10) == 10 * ACCOUNT_NUMBER_BASE;
    DecimalLength(AccountNumberFor(random), 9);
  }

  /** The fields the customer entity starts with before the mapper fills them. */
  const BLANK_PROFILE := Profile("", "", "")

  /** The details every newly opened account carries. */
  const NEW_ACCOUNT_DETAILS := AccountDetails(Savings, DefaultAddress)

  /** What `fetchAccount` answers over the given tables: a missing customer, a
      missing account, a lookup that matched several rows, or the customer's
      fields with its account attached. */
  ghost function FetchOutcome(customers: CustomerTable, accounts: AccountTable, mobileNumber: string): Result<CustomerDto> {
    var ids := CustomerIdsWithMobile(customers, mobileNumber);
    if ids == {} then
      Err(ResourceNotFound("Customer", "Mobile Number", mobileNumber))
    else if |ids| > 1 then
      Err(IncorrectResultSize)
    else
      var customer := customers[Pick(ids)];
      var ns := AccountNumbersOf(accounts, customer.customerId);
      if ns == {} then
        Err(ResourceNotFound("Account", "Customer Id", DecimalString(customer.customerId)))
      else if |ns| > 1 then
        Err(IncorrectResultSize)
      else
        Ok(CustomerDto(customer.profile, Some(MapToAccountsDto(accounts[Pick(ns)]))))
  }

  /** Creating an account for a fresh mobile number and then fetching by that
      number returns the profile given at creation with the new account: its
      number and the fixed defaults. */
  lemma CreateThenFetch(customers: CustomerTable, accounts: AccountTable, profile: Profile, id: nat, number: nat)
    requires Invariant(customers, accounts)
    requires CustomerIdsWithMobile(customers, profile.mobileNumber) == {}
    requires id !in customers
    ensures FetchOutcome(customers[id := Customer(id, profile)],
                         accounts[number := Account(number, id, NEW_ACCOUNT_DETAILS)],
                         profile.mobileNumber)
         == Ok(CustomerDto(profile, Some(AccountsDto(number, NEW_ACCOUNT_DETAILS))))
  {
    var customers', accounts' := customers[id := Customer(id, profile)], accounts[number := Account(number, id, NEW_ACCOUNT_DETAILS)];
    var ids := CustomerIdsWithMobile(customers', profile.mobileNumber);
    forall i | i in ids ensures i == id {
      assert i == id || i in CustomerIdsWithMobile(customers, profile.mobileNumber);
    }
    assert id in ids;
    assert ids == {id};
    SingletonPick(ids, id);
    var ns := AccountNumbersOf(accounts', id);
    assert forall m :: m in accounts ==> accounts[m].customerId != id;
    assert forall n :: n in ns ==> n == number;
    assert number in ns;
    assert ns == {number};
    SingletonPick(ns, number);
  }

  /** After a successful update, fetching by the new mobile number shows both the
      customer's new fields and the account's new fields. */
  lemma UpdateThenFetch(customers: CustomerTable, accounts: AccountTable, dto: CustomerDto)
    requires KeysConsistent(customers, accounts) && Invariant(customers, accounts)
    requires dto.accountsDto.Some? && dto.accountsDto.value.accountNumber in accounts
    requires CustomerIdsWithMobile(customers, dto.profile.mobileNumber)
               <= {accounts[dto.accountsDto.value.accountNumber].customerId}
    ensures var number := dto.accountsDto.value.accountNumber;
      var customerId := accounts[number].customerId;
      FetchOutcome(customers[customerId := MapToCustomer(dto, customers[customerId])],
                   accounts[number := MapToAccounts(dto.accountsDto.value, accounts[number])],
                   dto.profile.mobileNumber)
      == Ok(CustomerDto(dto.profile, Some(AccountsDto(number, dto.accountsDto.value.details))))
  {
    var number := dto.accountsDto.value.accountNumber;
    var customerId := accounts[number].customerId;
    var customers' := customers[customerId := MapToCustomer(dto, customers[customerId])];
    var accounts' := accounts[number := MapToAccounts(dto.accountsDto.value, accounts[number])];
    var ids := CustomerIdsWithMobile(customers', dto.profile.mobileNumber);
    forall i | i in ids ensures i == customerId {
      assert i == customerId || i in CustomerIdsWithMobile(customers, dto.profile.mobileNumber);
    }
    assert customerId in ids;
    assert ids == {customerId};
    SingletonPick(ids, customerId);
    var ns := AccountNumbersOf(accounts', customerId);
    forall n | n in ns ensures n == number {
      assert accounts[n].customerId == accounts[number].customerId;
    }
    assert number in ns;
    assert ns == {number};
    SingletonPick(ns, number);
  }

  /** After deleting by a mobile number, fetching by it finds no customer. */
  lemma DeleteThenFetch(customers: CustomerTable, accounts: AccountTable, mobileNumber: string, id: nat)
    requires MobileNumbersUnique(customers)
    requires id in CustomerIdsWithMobile(customers, mobileNumber)
    ensures FetchOutcome(customers - {id}, WithoutAccountsOf(accounts, id), mobileNumber)
         == Err(ResourceNotFound("Customer", "Mobile Number", mobileNumber))
  {
    forall i | i in customers - {id} ensures customers[i].profile.mobileNumber != mobileNumber {
      assert customers[id].profile.mobileNumber == mobileNumber;
    }
    assert CustomerIdsWithMobile(customers - {id}, mobileNumber) == {};
  }

  /** The generated number is not checked against existing accounts: when it
      equals the number of another customer's account, the save overwrites that
      account, and that customer's fetch then finds no account. */
  lemma CollidingNumberOrphansCustomer(customers: CustomerTable, accounts: AccountTable, id: nat, number: nat)
    requires KeysConsistent(customers, accounts) && Invariant(customers, accounts)
    requires number in accounts && accounts[number].customerId != id
    ensures var owner := customers[accounts[number].customerId];
      FetchOutcome(customers, accounts[number := Account(number, id, NEW_ACCOUNT_DETAILS)], owner.profile.mobileNumber)
        == Err(ResourceNotFound("Account", "Customer Id", DecimalString(owner.customerId)))
  {
    var ownerId := accounts[number].customerId;
    var owner := customers[ownerId];
    var accounts' := accounts[number := Account(number, id, NEW_ACCOUNT_DETAILS)];
    var ids := CustomerIdsWithMobile(customers, owner.profile.mobileNumber);
    assert forall i :: i in ids ==> i == ownerId;
    assert ownerId in ids;
    assert ids == {ownerId};
    SingletonPick(ids, ownerId);
    assert forall m :: m in accounts && m != number ==> accounts[m].customerId != ownerId;
    assert AccountNumbersOf(accounts', ownerId) == {};
  }

  /** The uniqueness guard runs only at creation. An update that gives a customer
      the mobile number another customer already holds goes through: over the
      tables `UpdateAccount` leaves on success, two customers share the number
      and the lookup by it matches two rows. */
  lemma UpdateMayDuplicateMobileNumber(customers: CustomerTable, accounts: AccountTable, dto: CustomerDto, other: nat)
    requires dto.accountsDto.Some? && dto.accountsDto.value.accountNumber in accounts
    requires accounts[dto.accountsDto.value.accountNumber].customerId in customers
    requires other in customers && other != accounts[dto.accountsDto.value.accountNumber].customerId
    requires customers[other].profile.mobileNumber == dto.profile.mobileNumber
    ensures var number := dto.accountsDto.value.accountNumber;
      var customerId := accounts[number].customerId;
      var customers' := customers[customerId := MapToCustomer(dto, customers[customerId])];
      var accounts' := accounts[number := MapToAccounts(dto.accountsDto.value, accounts[number])];
      && !MobileNumbersUnique(customers')
      && FetchOutcome(customers', accounts', dto.profile.mobileNumber) == Err(IncorrectResultSize)
  {
    var number := dto.accountsDto.value.accountNumber;
    var customerId := accounts[number].customerId;
    var customers' := customers[customerId := MapToCustomer(dto, customers[customerId])];
    var ids := CustomerIdsWithMobile(customers', dto.profile.mobileNumber);
    assert customers'[other].profile.mobileNumber == customers'[customerId].profile.mobileNumber;
    assert other in ids && customerId in ids;
    assert customerId in ids - {other};
    assert |ids| == |ids - {other}| + 1;
  }

  /** Two customers, and an account of the second: updating it with the first
      customer's mobile number makes the number shared although it was unique. */
  lemma UpdateDuplicatesMobileNumberExample()
    ensures var customers := map[1 := Customer(1, Profile("a", "a@x", "111")), 2 := Customer(2, Profile("b", "b@x", "222"))];
      var accounts := map[7 := Account(7, 2, NEW_ACCOUNT_DETAILS)];
      var dto := CustomerDto(Profile("b", "b@x", "111"), Some(AccountsDto(7, NEW_ACCOUNT_DETAILS)));
      && MobileNumbersUnique(customers)
      && !MobileNumbersUnique(customers[2 := MapToCustomer(dto, customers[2])])
  {
    var customers := map[1 := Customer(1, Profile("a", "a@x", "111")), 2 := Customer(2, Profile("b", "b@x", "222"))];
    var accounts := map[7 := Account(7, 2, NEW_ACCOUNT_DETAILS)];
    var dto := CustomerDto(Profile("b", "b@x", "111"), Some(AccountsDto(7, NEW_ACCOUNT_DETAILS)));
    assert customers.Keys == {1, 2};
    assert customers[1].profile.mobileNumber != customers[2].profile.mobileNumber;
    UpdateMayDuplicateMobileNumber(customers, accounts, dto, 1);
  }

  class AccountsServiceImpl {
    var customers: CustomerTable
    var accounts: AccountTable

    ghost predicate Valid()
      reads this
    {
      KeysConsistent(customers, accounts)
    }

    /** The service over the injected repositories, holding whatever rows they
        hold; the business invariant is not assumed of them. */
    constructor (customers0: CustomerTable, accounts0: AccountTable)
      requires KeysConsistent(customers0, accounts0)
      ensures Valid()
      ensures customers == customers0 && accounts == accounts0
    {
      customers := customers0;
      accounts := accounts0;
    }

    /** The service over empty repositories, where the invariant holds. */
    constructor Empty()
      ensures Valid() && Invariant(customers, accounts)
      ensures customers == map[] && accounts == map[]
    {
      customers := map[];
      accounts := map[];
    }

    /** `customerRepository.findByMobileNumber`. */
    method FindByMobileNumber(mobileNumber: string) returns (r: Lookup<Customer>)
      ensures var ids := CustomerIdsWithMobile(customers, mobileNumber);
        && (r == NoMatch <==> ids == {})
        && (r == ManyMatches <==> |ids| > 1)
        && (r.Match? ==> |ids| == 1 && r.value == customers[Pick(ids)])
    {
      var ids := CustomerIdsWithMobile(customers, mobileNumber);
      if ids == {} {
        r := NoMatch;
      } else {
        var id :| id in ids;
        if ids == {id} {
          SingletonPick(ids, id);
          r := Match(customers[id]);
        } else {
          assert |ids - {id}| > 0;
          r := ManyMatches;
        }
      }
    }

    /** `accountsRepository.findByCustomerId`. */
    method FindByCustomerId(customerId: nat) returns (r: Lookup<Account>)
      ensures var ns := AccountNumbersOf(accounts, customerId);
        && (r == NoMatch <==> ns == {})
        && (r == ManyMatches <==> |ns| > 1)
        && (r.Match? ==> |ns| == 1 && r.value == accounts[Pick(ns)])
    {
      var ns := AccountNumbersOf(accounts, customerId);
      if ns == {} {
        r := NoMatch;
      } else {
        var n :| n in ns;
        if ns == {n} {
          SingletonPick(ns, n);
          r := Match(accounts[n]);
        } else {
          assert |ns - {n}| > 0;
          r := ManyMatches;
        }
      }
    }

    /** `createNewAccount`: the account opened for `customer`, with the fixed
        defaults and a number drawn from the generated range. */
    method CreateNewAccount(customer: Customer) returns (account: Account)
      ensures account.customerId == customer.customerId
      ensures ACCOUNT_NUMBER_BASE <= account.accountNumber <= LARGEST_ACCOUNT_NUMBER
      ensures account.details.accountType == Savings
      ensures account.details.branchAddress == DefaultAddress
    {
      var random: nat :| random < RANDOM_BOUND;
      account := Account(AccountNumberFor(random), customer.customerId, NEW_ACCOUNT_DETAILS);
    }

    /** `createAccount`. Fails with `CustomerAlreadyExists` when the mobile number is
        taken; otherwise inserts one customer under a fresh id and saves one new
        account for it. The account save overwrites any row with the same number:
        the generated number is not checked against existing accounts. The ghost
        results name the id and the number the store and the draw chose. */
    method CreateAccount(dto: CustomerDto) returns (r: Result<()>, ghost newId: nat, ghost newNumber: nat)
      requires Valid()
      modifies this
      ensures Valid()
      ensures var ids := CustomerIdsWithMobile(old(customers), dto.profile.mobileNumber);
        if |ids| == 1 then
          && r == Err(CustomerAlreadyExists(AlreadyRegisteredMessage(dto.profile.mobileNumber)))
          && customers == old(customers) && accounts == old(accounts)
        else if |ids| > 1 then
          && r == Err(IncorrectResultSize)
          && customers == old(customers) && accounts == old(accounts)
        else
          && r == Ok(())
          && newId !in old(customers)
          && customers == old(customers)[newId := Customer(newId, dto.profile)]
          && ACCOUNT_NUMBER_BASE <= newNumber <= LARGEST_ACCOUNT_NUMBER
          && accounts == old(accounts)[newNumber := Account(newNumber, newId, NEW_ACCOUNT_DETAILS)]
      ensures old(MobileNumbersUnique(customers))
              && CustomerIdsWithMobile(old(customers), dto.profile.mobileNumber) != {}
              ==> r == Err(CustomerAlreadyExists(AlreadyRegisteredMessage(dto.profile.mobileNumber)))
      ensures old(Invariant(customers, accounts)) ==> Invariant(customers, accounts)
    {
      newId, newNumber := 0, 0;
      if MobileNumbersUnique(customers) {
        AtMostOneWithMobile(customers, dto.profile.mobileNumber);
      }
      var found := FindByMobileNumber(dto.profile.mobileNumber);
      match found {
        case Match(_) =>
          r := Err(CustomerAlreadyExists(AlreadyRegisteredMessage(dto.profile.mobileNumber)));
        case ManyMatches =>
          r := Err(IncorrectResultSize);
        case NoMatch =>
          var bound := UpperBound(customers.Keys);
          assert bound !in customers;
          var id: nat :| id !in customers;
          forall i | i in customers
            ensures customers[i].profile.mobileNumber != dto.profile.mobileNumber
          {
            assert i !in CustomerIdsWithMobile(customers, dto.profile.mobileNumber);
          }
          var savedCustomer := MapToCustomer(dto, Customer(id, BLANK_PROFILE));
          customers := customers[id := savedCustomer];
          var account := CreateNewAccount(savedCustomer);
          accounts := accounts[account.accountNumber := account];
          r, newId, newNumber := Ok(()), id, account.accountNumber;
      }
    }

    /** `fetchAccount`: the customer with `mobileNumber` and its account, or the
        first lookup that fails. Neither table changes. */
    method FetchAccount(mobileNumber: string) returns (r: Result<CustomerDto>)
      ensures r == FetchOutcome(customers, accounts, mobileNumber)
      ensures Invariant(customers, accounts) ==> r != Err(IncorrectResultSize)
    {
      var foundCustomer := FindByMobileNumber(mobileNumber);
      match foundCustomer {
        case NoMatch =>
          r := Err(ResourceNotFound("Customer", "Mobile Number", mobileNumber));
        case ManyMatches =>
          if Invariant(customers, accounts) {
            AtMostOneWithMobile(customers, mobileNumber);
          }
          r := Err(IncorrectResultSize);
        case Match(customer) =>
          var foundAccount := FindByCustomerId(customer.customerId);
          match foundAccount {
            case NoMatch =>
              r := Err(ResourceNotFound("Account", "Customer Id", DecimalString(customer.customerId)));
            case ManyMatches =>
              if Invariant(customers, accounts) {
                AtMostOneAccountOf(accounts, customer.customerId);
              }
              r := Err(IncorrectResultSize);
            case Match(account) =>
              var customerDto := MapToCustomerDto(customer);
              r := Ok(customerDto.(accountsDto := Some(MapToAccountsDto(account))));
          }
      }
    }

    /** `updateAccount`. Without an account part it returns false and changes
        nothing. Otherwise the account is overwritten and saved first; only then
        is its customer looked up, so a missing customer fails after the account
        change has been kept. */
    method UpdateAccount(dto: CustomerDto) returns (r: Result<bool>)
      requires Valid()
      modifies this
      ensures Valid()
      ensures dto.accountsDto.None? ==>
        r == Ok(false) && customers == old(customers) && accounts == old(accounts)
      ensures dto.accountsDto.Some? ==>
        var number := dto.accountsDto.value.accountNumber;
        if number !in old(accounts) then
          && r == Err(ResourceNotFound("Account", "AccountNumber", DecimalString(number)))
          && customers == old(customers) && accounts == old(accounts)
        else
          var customerId := old(accounts)[number].customerId;
          && accounts == old(accounts)[number := MapToAccounts(dto.accountsDto.value, old(accounts)[number])]
          && if customerId !in old(customers) then
               r == Err(ResourceNotFound("Customer", "CustomerID", DecimalString(customerId)))
               && customers == old(customers)
             else
               r == Ok(true)
               && customers == old(customers)[customerId := MapToCustomer(dto, old(customers)[customerId])]
      ensures old(AccountsReferenceCustomers(customers, accounts)) ==> AccountsReferenceCustomers(customers, accounts)
      ensures old(AtMostOneAccountEach(accounts)) ==> AtMostOneAccountEach(accounts)
      ensures
        && old(MobileNumbersUnique(customers))
        && (dto.accountsDto.Some? && dto.accountsDto.value.accountNumber in old(accounts) ==>
              CustomerIdsWithMobile(old(customers), dto.profile.mobileNumber)
                <= {old(accounts)[dto.accountsDto.value.accountNumber].customerId})
        ==> MobileNumbersUnique(customers)
    {
      var isUpdated := false;
      var accountsDto := dto.accountsDto;
      if accountsDto.Some? {
        var number := accountsDto.value.accountNumber;
        if number !in accounts {
          r := Err(ResourceNotFound("Account", "AccountNumber", DecimalString(number)));
          return;
        }
        var account := MapToAccounts(accountsDto.value, accounts[number]);
        accounts := accounts[account.accountNumber := account];
        var customerId := account.customerId;
        if customerId !in customers {
          r := Err(ResourceNotFound("Customer", "CustomerID", DecimalString(customerId)));
          return;
        }
        var customer := MapToCustomer(dto, customers[customerId]);
        ghost var holders := CustomerIdsWithMobile(customers, dto.profile.mobileNumber);
        forall i | i in customers && i != customerId && holders <= {customerId}
          ensures customers[i].profile.mobileNumber != dto.profile.mobileNumber
        {
          assert i !in holders;
        }
        customers := customers[customer.customerId := customer];
        isUpdated := true;
      }
      r := Ok(isUpdated);
    }

    /** `deleteAccount`: remove every account of the customer with `mobileNumber`,
        then the customer. */
    method DeleteAccount(mobileNumber: string) returns (r: Result<bool>)
      requires Valid()
      modifies this
      ensures Valid()
      ensures var ids := CustomerIdsWithMobile(old(customers), mobileNumber);
        if ids == {} then
          && r == Err(ResourceNotFound("Customer", "Mobile Number", mobileNumber))
          && customers == old(customers) && accounts == old(accounts)
        else if |ids| > 1 then
          && r == Err(IncorrectResultSize)
          && customers == old(customers) && accounts == old(accounts)
        else
          var id := Pick(ids);
          && r == Ok(true)
          && customers.Keys == old(customers).Keys - {id}
          && (forall i :: i in customers ==> customers[i] == old(customers)[i])
          && accounts.Keys == old(accounts).Keys - AccountNumbersOf(old(accounts), id)
          && (forall n :: n in accounts ==> accounts[n] == old(accounts)[n])
      ensures old(Invariant(customers, accounts)) ==> Invariant(customers, accounts)
    {
      var found := FindByMobileNumber(mobileNumber);
      match found {
        case NoMatch =>
          r := Err(ResourceNotFound("Customer", "Mobile Number", mobileNumber));
        case ManyMatches =>
          r := Err(IncorrectResultSize);
        case Match(customer) =>
          accounts := WithoutAccountsOf(accounts, customer.customerId);
          customers := customers - {customer.customerId};
          r := Ok(true);
      }
    }
  }
}
