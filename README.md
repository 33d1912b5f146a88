# Accounts service: lifecycle and error translation

A Dafny model of two pieces of the `accounts` microservice of a small Spring Boot
banking system.

- **The account lifecycle service** (`AccountsServiceImpl`). It opens, fetches,
  updates and deletes a customer together with its account. The service works over
  two tables: customers keyed by a store-assigned customer id, and accounts keyed
  by account number, each account naming its customer's id. The mobile number is
  the customer's business key. The class `AccountsService.AccountsServiceImpl`
  holds the two repositories as two maps, and each operation is a method that
  reads and reassigns them in the same order as the Java code.
- **The global exception handler** (`GlobalExceptionHandler`). It is a pure,
  total translation from the failure that escaped a request to the response:
  - a validation failure gives 400 and a field-to-message map;
  - an already-exists failure gives 400;
  - a not-found failure gives 404;
  - anything else gives 500.

Modules:

- `Wrappers` (`wrappers.dfy`): the optional value used for `Optional` and nullable fields.
- `Text` (`text.dfy`): the decimal rendering of ids that appears in not-found
  errors (`Long.toString`).
- `Entities` (`entities.dfy`): the entities, the transfer objects, the mappers and
  the service's failures.
- `Store` (`store.dfy`): the tables as maps, the derived repository queries, and
  the business invariant. The invariant says that mobile numbers are unique, every
  account references a stored customer, and no customer owns two accounts.
- `AccountsService` (`accounts_service.dfy`): the service class and the lemmas
  relating its operations.
- `ErrorTranslation` (`global_exception_handler.dfy`): the handler.

Modelling choices:

- **Account save is an overwrite.** The generated account number is not checked
  against existing accounts, as in the source. When it collides, the save replaces
  the other customer's account; `CollidingNumberOrphansCustomer` shows the
  consequence. No freshness precondition is imposed.
- **Fresh customer id.** The store-assigned customer id is any id not yet in the
  customer map. `Store.UpperBound` shows that such an id always exists.
- **Random draw.** `new Random().nextInt(900000000)` is any natural below 900000000.
- **Derived queries.** A derived `Optional` query (`findByMobileNumber`,
  `findByCustomerId`) that matches several rows throws in Spring Data. This is
  modelled as the error `IncorrectResultSize`. The case is reachable because
  `updateAccount` can give a customer another customer's mobile number
  (`UpdateMayDuplicateMobileNumber`). Under the invariant it never occurs.
- **Failures.** Exceptions are `Result` values. `updateAccount` saves the account
  before the customer lookup, so a missing customer leaves the account change in
  place. The model keeps that non-atomic behaviour.
- **Mappers.** The mappers copy a `Profile` (name, email, mobile number) or an
  `AccountDetails` (type, branch address) record. Keys and the owning customer id
  are kept. What the mappers copy beyond this is not known.
- **Validation messages.** A field error's default message may be null. The
  collection into a map rejects a null message as well as a repeated field name,
  checking each field error in order, and the handler then throws instead of
  answering.
- **Constants.** The values of `AccountsConstants.SAVINGS` and
  `AccountsConstants.ADDRESS` are not known. They are the markers `Savings` and
  `DefaultAddress`.
- **Account number range.** `1000000000L + nextInt(900000000)` gives the closed
  range [1000000000, 1899999999].

## Model

| member | source | states |
|---|---|---|
| `AccountsService.AlreadyRegisteredMessage` | accounts/src/main/java/com/mylearning/accounts/service/impl/AccountsServiceImpl.java:37 | the already-exists message is the fixed prefix followed by the mobile number, unchanged |
| `AccountsService.AccountNumberFor` | accounts/src/main/java/com/mylearning/accounts/service/impl/AccountsServiceImpl.java:121 | a draw below 900000000 gives an account number in [1000000000, 1899999999], and the draw is recoverable from it |
| `AccountsService.AccountNumberRangeReached` | accounts/src/main/java/com/mylearning/accounts/service/impl/AccountsServiceImpl.java:121 | every number of that range, the largest included, comes from some draw |
| `AccountsService.AccountNumberHasTenDigits` | accounts/src/main/java/com/mylearning/accounts/service/impl/AccountsServiceImpl.java:121 | every generated account number is written with ten decimal digits |
| `AccountsService.AccountsServiceImpl.constructor` | accounts/src/main/java/com/mylearning/accounts/service/impl/AccountsServiceImpl.java:22-26 | the service is built over the injected repositories and holds exactly their rows, whether or not they satisfy the invariant |
| `AccountsService.AccountsServiceImpl.Empty` | accounts/src/main/java/com/mylearning/accounts/service/impl/AccountsServiceImpl.java:22-26 | over empty repositories the service starts in a state that satisfies the invariant |
| `AccountsService.AccountsServiceImpl.FindByMobileNumber` | accounts/src/main/java/com/mylearning/accounts/service/impl/AccountsServiceImpl.java:35 | the lookup finds nothing exactly when no customer has the number, several rows exactly when more than one has it, otherwise that customer |
| `AccountsService.AccountsServiceImpl.FindByCustomerId` | accounts/src/main/java/com/mylearning/accounts/service/impl/AccountsServiceImpl.java:53 | the same three outcomes for the accounts that reference a customer id |
| `AccountsService.AccountsServiceImpl.CreateNewAccount` | accounts/src/main/java/com/mylearning/accounts/service/impl/AccountsServiceImpl.java:118-127 | the new account belongs to the given customer, has type SAVINGS and the constant branch address, and its number is in [1000000000, 1899999999] |
| `AccountsService.AccountsServiceImpl.CreateAccount` | accounts/src/main/java/com/mylearning/accounts/service/impl/AccountsServiceImpl.java:33-41 | a taken mobile number fails with already-exists naming it, with both tables unchanged; otherwise exactly one customer under a fresh id and one new account for it are added and nothing else changes; the invariant (unique mobile numbers included) is preserved |
| `AccountsService.AccountsServiceImpl.FetchAccount` | accounts/src/main/java/com/mylearning/accounts/service/impl/AccountsServiceImpl.java:50-59 | the result is the customer-not-found error, the account-not-found error naming the customer id, or the customer's fields with its account attached; neither table changes; under the invariant the lookups never match several rows |
| `AccountsService.AccountsServiceImpl.UpdateAccount` | accounts/src/main/java/com/mylearning/accounts/service/impl/AccountsServiceImpl.java:73-92 | no account part: false and no change; unknown account number: not-found and no change; otherwise the account is overwritten first, and a missing customer then fails with not-found while the account change persists; on success true, with only that account and that customer changed |
| `AccountsService.AccountsServiceImpl.DeleteAccount` | accounts/src/main/java/com/mylearning/accounts/service/impl/AccountsServiceImpl.java:106-112 | an unknown mobile number gives not-found and deletes nothing; otherwise every account of the customer and the customer are removed, all other rows are untouched, the result is true, and the invariant is preserved |
| `AccountsService.CreateThenFetch` | accounts/src/main/java/com/mylearning/accounts/service/impl/AccountsServiceImpl.java:33-59 | after a successful create, fetching by the mobile number returns the given profile with the new account number and the fixed defaults |
| `AccountsService.UpdateThenFetch` | accounts/src/main/java/com/mylearning/accounts/service/impl/AccountsServiceImpl.java:77-88 | after a successful update, fetching by the new mobile number shows both the new customer fields and the new account fields |
| `AccountsService.DeleteThenFetch` | accounts/src/main/java/com/mylearning/accounts/service/impl/AccountsServiceImpl.java:107-110 | after a delete, fetching by that mobile number fails with customer not-found |
| `AccountsService.CollidingNumberOrphansCustomer` | accounts/src/main/java/com/mylearning/accounts/service/impl/AccountsServiceImpl.java:40 | a generated number equal to another customer's account number overwrites that account, and that customer's fetch then finds no account |
| `AccountsService.UpdateMayDuplicateMobileNumber` | accounts/src/main/java/com/mylearning/accounts/service/impl/AccountsServiceImpl.java:77-88 | the update does not guard mobile-number uniqueness: whenever another customer already holds the new number, the tables after a successful update have two customers sharing it, and the lookup by it matches two rows |
| `AccountsService.UpdateDuplicatesMobileNumberExample` | accounts/src/main/java/com/mylearning/accounts/service/impl/AccountsServiceImpl.java:77-88 | a concrete update with an account part turns tables with unique mobile numbers into tables where two customers share one |
| `Store.WithoutAccountsOf` | accounts/src/main/java/com/mylearning/accounts/service/impl/AccountsServiceImpl.java:109 | deleting by customer id removes exactly the accounts of that customer and keeps every other account unchanged |
| `Store.AtMostOneWithMobile` | accounts/src/main/java/com/mylearning/accounts/service/impl/AccountsServiceImpl.java:35 | with unique mobile numbers, at most one customer matches a mobile number |
| `Store.AtMostOneAccountOf` | accounts/src/main/java/com/mylearning/accounts/service/impl/AccountsServiceImpl.java:53 | with one account per customer, at most one account matches a customer id |
| `Store.UpperBound` | accounts/src/main/java/com/mylearning/accounts/service/impl/AccountsServiceImpl.java:39 | a finite set of ids has a strict upper bound, so a fresh customer id always exists |
| `Text.DecimalString` | accounts/src/main/java/com/mylearning/accounts/service/impl/AccountsServiceImpl.java:54 | an id renders as a non-empty string of digits with no leading zero |
| `Text.DecimalRoundTrip` | accounts/src/main/java/com/mylearning/accounts/service/impl/AccountsServiceImpl.java:85 | reading a rendered id back gives the id |
| `Text.DecimalStringInjective` | accounts/src/main/java/com/mylearning/accounts/service/impl/AccountsServiceImpl.java:78 | distinct ids render differently, so the value in a not-found error names one key |
| `ErrorTranslation.ToMap` | accounts/src/main/java/com/mylearning/accounts/exception/GlobalExceptionHandler.java:33-34 | collecting succeeds exactly when every default message is non-null and the field names are distinct, and then maps each field to its default message with no other keys |
| `ErrorTranslation.DistinctFieldsCount` | accounts/src/main/java/com/mylearning/accounts/exception/GlobalExceptionHandler.java:33-34 | distinct field names give one map entry per field error |
| `ErrorTranslation.FirstFailureReported` | accounts/src/main/java/com/mylearning/accounts/exception/GlobalExceptionHandler.java:33-34 | a failed collection reports the first field error it cannot accept: a null message, or a present message under a field already collected |
| `ErrorTranslation.HandleMethodArgumentNotValid` | accounts/src/main/java/com/mylearning/accounts/exception/GlobalExceptionHandler.java:32-36 | with non-null messages and distinct field names the answer is 400 with a map holding one entry per field error, from field name to default message; otherwise the handler throws |
| `ErrorTranslation.UncollectableFieldsFailTheHandler` | accounts/src/main/java/com/mylearning/accounts/exception/GlobalExceptionHandler.java:33-34 | field errors that do not collect make the validation handler throw, naming one of the fields: a repeated field when all messages are present, a null message when the fields are distinct |
| `ErrorTranslation.HandleCustomerAlreadyExists` | accounts/src/main/java/com/mylearning/accounts/exception/GlobalExceptionHandler.java:47-55 | status 400 on the response and in the body; the message and the request description pass through unchanged |
| `ErrorTranslation.HandleResourceNotFound` | accounts/src/main/java/com/mylearning/accounts/exception/GlobalExceptionHandler.java:67-75 | status 404 on the response and in the body; the message and the request description pass through unchanged |
| `ErrorTranslation.HandleGlobalException` | accounts/src/main/java/com/mylearning/accounts/exception/GlobalExceptionHandler.java:78-86 | status 500 on the response and in the body; the message and the request description pass through unchanged |
| `ErrorTranslation.Handle` | accounts/src/main/java/com/mylearning/accounts/exception/GlobalExceptionHandler.java:31-86 | each failure kind goes to its own handler; every failure is answered except a validation failure whose field errors do not collect, and an answer has the shape meant for its kind |
| `ErrorTranslation.ClassificationTotalAndExclusive` | accounts/src/main/java/com/mylearning/accounts/exception/GlobalExceptionHandler.java:31-86 | every failure is answered (for validation, when the field errors collect), and the answer has the shape of exactly one kind, the one meant for that failure |
| `ErrorTranslation.ErrorBodyPassesThrough` | accounts/src/main/java/com/mylearning/accounts/exception/GlobalExceptionHandler.java:48-54 | every error body carries the exception's message and the request description unchanged, under the response's own status |
| `ErrorTranslation.StatusCodes` | accounts/src/main/java/com/mylearning/accounts/exception/GlobalExceptionHandler.java:31-86 | the code is 400 exactly for validation and already-exists, 404 exactly for not-found, and 500 exactly for anything else |

## Left out

- JPA persistence: transactions, merge semantics of `save` beyond overwriting a
  row, id generation beyond "an unused id", and the database's unique constraint
  on the mobile number. These are storage behaviour, not service logic.
- The check-then-insert race between concurrent `createAccount` calls. The model
  is sequential.
- `CustomerMapper` and `AccountsMapper` are not part of this model. They are
  abstracted as copying the records named above.
- `AccountsConstants`, `ResourceNotFoundException` and
  `CustomerAlreadyExistsException` are not part of this model.
  - The two constants are opaque markers.
  - The not-found error keeps its three arguments instead of the message text
    built from them; the handler receives the message as given.
- `java.util.Random` is left out. The draw is a nondeterministic value below the
  `nextInt` bound.
- UpdateAccount: a null account number in the update's account part is not
  modelled; there `findById(null)` throws instead of raising not-found. Account
  numbers in the model are always present.
- `LocalDateTime.now()` is left out. The timestamp in every error body is dropped.
- `WebRequest.getDescription(false)` is left out. The request description is an
  opaque string parameter.
- `ResponseEntityExceptionHandler`'s other behaviour and Spring's choice of the
  most specific `@ExceptionHandler` are framework dispatch. `Handle` assigns each
  failure kind its handler directly.
- `IAccountsService`, `CardsApplication` and `LoansApplication` have no logic
  beyond signatures and bootstrap.
- Java `long`/`Long` width is not modelled. Ids and account numbers are naturals;
  the generated numbers stay far below 2^63.
