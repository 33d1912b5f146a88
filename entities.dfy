/** The persisted entities, the transfer objects, the mappers between them and
    the failures the lifecycle service raises. */
module Entities {
  import opened Wrappers

  /** The customer fields that the customer mapper copies between a `CustomerDto`
      and a `Customer`; the mobile number is the business key. */
  datatype Profile = Profile(name: string, email: string, mobileNumber: string)

  /** A customer row: the store-assigned id and the copied fields. */
  datatype Customer = Customer(customerId: nat, profile: Profile)

  /** `Savings` stands for the constant `AccountsConstants.SAVINGS`. */
  datatype AccountType = Savings | OtherAccountType(name: string)

  /** `DefaultAddress` stands for the constant `AccountsConstants.ADDRESS`. */
  datatype BranchAddress = DefaultAddress | OtherAddress(address: string)

  /** The account fields that the accounts mapper copies between an `AccountsDto`
      and an `Accounts` row. */
  datatype AccountDetails = AccountDetails(accountType: AccountType, branchAddress: BranchAddress)

  /** An account row: its number (the key), the owning customer's id and the copied fields. */
  datatype Account = Account(accountNumber: nat, customerId: nat, details: AccountDetails)

  datatype AccountsDto = AccountsDto(accountNumber: nat, details: AccountDetails)

  /** The combined view; `accountsDto` is `None` where the Java field is null. */
  datatype CustomerDto = CustomerDto(profile: Profile, accountsDto: Option<AccountsDto>)

  /** `CustomerMapper.mapToCustomer`: overwrite the copied fields, keep the id. */
  function MapToCustomer(dto: CustomerDto, customer: Customer): Customer {
    customer.(profile := dto.profile)
  }

  /** `CustomerMapper.mapToCustomerDto` into a fresh DTO, whose account part is unset. */
  function MapToCustomerDto(customer: Customer): CustomerDto {
    CustomerDto(customer.profile, None)
  }

  /** `AccountsMapper.mapToAccounts`: overwrite the copied fields, keep the key and the owner. */
  function MapToAccounts(dto: AccountsDto, account: Account): Account {
    account.(details := dto.details)
  }

  /** `AccountsMapper.mapToAccountsDto` into a fresh DTO. */
  function MapToAccountsDto(account: Account): AccountsDto {
    AccountsDto(account.accountNumber, account.details)
  }

  /** The exceptions the service lets escape. `IncorrectResultSize` is what a
      derived `Optional` query throws when more than one row matches. */
  datatype ServiceError =
    | CustomerAlreadyExists(message: string)
    | ResourceNotFound(resourceName: string, fieldName: string, fieldValue: string)
    | IncorrectResultSize

  datatype Result<+T> = Ok(value: T) | Err(error: ServiceError)
}
