# FastAPI calculator: a Dafny model of its core

The service lets authenticated users run and store four arithmetic operations
(add, sub, mul, div) and manage their stored calculations through browse, read,
edit, add and delete endpoints. This project models the three pieces of logic
behind the HTTP and ORM wiring, and proves properties of them:

- **Operation resolver** (`calculation_factory.dfy`, module `CalculationFactory`):
  one operation value per tag, each holding only its operands, and the
  `get_operation` dispatch. `Resolve(t, a, b)` is `get_operation(t, a, b).compute()`
  over `real`. Division by zero is a precondition, because every caller guards it.
- **Calculation store** (`crud_calculations.dfy`, `routers_calculations.dfy`,
  `schemas.dfy`):
  - `CrudCalculations.CalculationTable` is a class holding the table as a
    `map<int, Calculation>` keyed by id, plus an id counter.
  - Its methods create, update and delete records in place. Its functions
    browse and get.
  - Its invariant `Valid()` says that every stored record has
    `result == Resolve(type, a, b)` and no zero divisor on a division.
  - The endpoints in `CalculationsRouter` add the ownership guard. An absent
    record and another user's record give the same `NotFound`.
  - `Edit` runs the merged-triple zero-divisor guard before anything is written.
  - The create-time validator is `Schemas.NoZeroDivisor`, used by
    `Schemas.ValidateCreate`.
- **User registry and authentication** (`crud_users.dfy`, `routers_users.dfy`,
  `dependencies.dfy`):
  - `CrudUsers.UserTable` is a class holding the user rows in insertion order.
    The username and email queries have no ordering, so the database promises
    no particular matching row. The model fixes `.first()` as `First`, the
    earliest matching row. Under the database's unique constraints at most one
    row matches anyway.
  - Registration checks the username before the email.
  - Login gives one error for every failure.
  - `Dependencies.GetCurrentUser` resolves a token back to a user.
- **Credential service** (`security.dfy`): password hashing and verification
  and token issuing and decoding belong to the `security` module, which is not
  part of this model. `Security.Credentials` holds four arbitrary total
  functions, passed in as a parameter. Every property holds for every choice of
  them. Where a property needs something from them, it is a precondition: the
  login round trip needs a token to decode to the claims it was issued with.
- **Test flows** (`scenarios.dfy`): the flows of `tests/test_app.py`, written as
  client methods over fresh tables.

`results.dfy` holds `Option`, `Result` and the `Error` kinds. Each kind that a
handler raises is named after the detail message it attaches. `InvalidType`
has no such message: the request schema raises it when a tag is not one of the
enum's values.

Three details of the code the model keeps:

- A token whose subject has no user fails with its own detail, "User not found",
  in `app/dependencies.py:24-25`. That is `UserNotFound` here, a separate kind
  from `InvalidToken`; both are 401 in the source.
- An unknown operation tag is rejected by the request schema before it reaches
  the factory (`InvalidType`). The factory's "Unsupported type" branch
  (`app/calculation_factory.py:36`) cannot be reached for the closed enum, so
  the model's `match` over the four tags has no such branch.
- The edit guard reads `update.type` as a truth value
  (`app/routers/calculations.py:32`). Every enum member is a non-empty string, so
  this is the same as "is set". The model uses `GetOr` for both merged fields.

## Model

| member | source | states |
|---|---|---|
| `Schemas.Parse` | app/schemas.py:21-25 | parsing a string gives the tag whose value it is, and fails exactly for strings that are none of "add", "sub", "mul", "div" |
| `Schemas.ParseValue` | app/crud_calculations.py:33-35 | storing a tag's `.value` and reading it back with `CalculationType(...)` (as `update_calculation` does) gives the same tag |
| `Schemas.NoZeroDivisor` | app/schemas.py:32-39 | the validator fails (with the zero-divisor error) exactly when the type is div and `b == 0`; otherwise it returns `b` unchanged, including `b == 0` for the other tags |
| `Schemas.ValidateCreate` | app/schemas.py:27-39 | a create body is accepted exactly when its tag is a known value and it is not div with `b == 0`; an accepted body keeps tag, `a` and `b` and satisfies `Valid()`; the error is the tag error or the zero-divisor error accordingly |
| `CalculationFactory.GetOperation` | app/calculation_factory.py:27-36 | the dispatch covers all four tags, picks the operation class of that tag, and the operation stores exactly `a` and `b` |
| `CalculationFactory.Resolve` | app/calculation_factory.py:11-36 | add gives `a + b`, sub gives `a - b`, mul gives `a * b`, div gives `a / b`, with div defined only for `b != 0` |
| `CalculationFactory.FactoryExamples` | tests/test_app.py:31-39 | add(2,3)=5, sub(10,4)=6, mul(3,7)=21, div(8,2)=4 |
| `CrudCalculations.Updated` | app/crud_calculations.py:27-36 | the updated record keeps `id` and `user_id`, takes each provided field (0 included) and keeps each omitted one, and its result is `Resolve` of the merged triple |
| `CrudCalculations.UpdatedNoChanges` | app/crud_calculations.py:28-36 | an update with no field set leaves a consistent record unchanged, `result` included |
| `CrudCalculations.UpdatedIdempotent` | app/crud_calculations.py:28-36 | applying the same update twice gives the same record as applying it once |
| `CrudCalculations.CalculationTable.BrowseCalculations` | app/crud_calculations.py:7-8 | the result holds exactly the stored records whose `user_id` is the given user, unchanged |
| `CrudCalculations.CalculationTable.GetCalculation` | app/crud_calculations.py:10-11 | the record with that id, or `None` exactly when there is none; in a valid table that record carries that id and is consistent |
| `CrudCalculations.CalculationTable.CreateCalculation` | app/crud_calculations.py:13-25 | adds one record under a fresh id, with the given `a`, `b`, type and `user_id` and result `Resolve(type, a, b)`; every other record is unchanged; browse for the owner gains that record and browse for everyone else is unchanged; the store invariant is kept |
| `CrudCalculations.CalculationTable.UpdateCalculation` | app/crud_calculations.py:27-41 | overwrites the provided fields step by step and recomputes the result: the stored record becomes `Updated(record, update)` and nothing else changes; an empty update changes nothing; the invariant is kept |
| `CrudCalculations.CalculationTable.DeleteCalculation` | app/crud_calculations.py:43-45 | removes exactly that record; a later get of its id gives `None`; gets of every other id are unchanged |
| `CrudUsers.PublicHidesHash` | app/schemas.py:5-15 | the exposed user shape has `id`, `username` and `email` only: two users that differ only in their hash look the same |
| `CrudUsers.First` | app/crud_users.py:5-9 | `.first()`: `None` exactly when no row matches; otherwise a matching row before which no row matches |
| `CrudUsers.FirstAppend` | app/crud_users.py:11-20 | after an insert, a lookup gives the old answer if there was one, else the new row if it matches |
| `CrudUsers.UserTable.GetUserByUsername` | app/crud_users.py:5-6 | a stored user with that username, or `None` exactly when no stored user has it |
| `CrudUsers.UserTable.GetUserByEmail` | app/crud_users.py:8-9 | a stored user with that email, or `None` exactly when no stored user has it |
| `CrudUsers.UserTable.AuthenticateUser` | app/crud_users.py:22-28 | `None` when no user has the username; `None` when the password does not verify against the found user's hash; otherwise the found user, whose hash the password verifies |
| `CrudUsers.UserTable.CreateUser` | app/crud_users.py:11-20 | appends one user with a fresh id, the given username and email and `hash(password)`, never the password; the new user is then found by username (and is the one found when the name was free) |
| `CrudUsers.AuthenticateUnique` | app/crud_users.py:22-28 | with unique usernames, authentication returns the stored user with that username exactly when the password verifies against its hash |
| `CalculationsRouter.Owned` | app/routers/calculations.py:19-21 | the guard succeeds exactly when the record exists and its `user_id` is the caller's id; every other case is `NotFound` |
| `CalculationsRouter.Browse` | app/routers/calculations.py:9-11 | the caller sees exactly the records the ownership guard lets them read |
| `CalculationsRouter.Read` | app/routers/calculations.py:17-22 | success exactly for an existing record the caller owns, giving that record, which browse also lists; absent and foreign records both give `NotFound` |
| `CalculationsRouter.NotFoundIndistinguishable` | app/routers/calculations.py:19-21 | reading an absent id and reading another user's record give identical answers |
| `CalculationsRouter.Add` | app/routers/calculations.py:13-15 | a validated body becomes a new record owned by the caller with the resolved result, readable by the caller afterwards |
| `CalculationsRouter.AddRequest` | app/routers/calculations.py:13-15 | a body the schema rejects gives its error and stores nothing (div with `b == 0` gives `InvalidOperand`); an accepted one adds exactly one record |
| `CalculationsRouter.Edit` | app/routers/calculations.py:24-37 | `NotFound` for an absent or foreign record before any other check; `InvalidOperand` when the merged tag is div and the merged `b` is 0, with the store untouched; otherwise the record becomes `Updated(record, update)` and a read returns it |
| `CalculationsRouter.Delete` | app/routers/calculations.py:39-45 | `NotFound` under the same ownership rule, with nothing removed; otherwise exactly that record is removed; afterwards a read (and so a second delete) gives `NotFound` |
| `UsersRouter.Register` | app/routers/users.py:9-15 | username taken: "Username already registered", whatever the email; username free but email taken: "Email already registered"; nothing is stored on either failure; otherwise exactly one user, under an id no stored user has and with the hashed password, is added and its public shape returned; unique usernames and emails stay unique |
| `UsersRouter.Login` | app/routers/users.py:17-23 | success exactly when authentication succeeds, with a token issued for the claims `{"sub": username}`; every failure is the single `InvalidCredentials` |
| `UsersRouter.LoginFailureIndistinguishable` | app/routers/users.py:19-21 | an unknown username and a wrong password give the same error |
| `Dependencies.GetCurrentUser` | app/dependencies.py:16-26 | an undecodable token and a payload without "sub" give `InvalidToken`; `UserNotFound` exactly when the subject matches no user; success exactly when the token decodes, carries "sub" and some stored user has that username; on success a stored user whose username is the subject; the user table is only read |
| `Dependencies.LoginThenResolve` | app/dependencies.py:20-26 | a token from a successful login resolves to the user who logged in, when the token decodes to the claims it was issued with |
| `Scenarios.SignUpAndSignIn` | tests/test_app.py:10-17 | registering a username and email no stored user has, logging in and resolving the token yields the new user, appended under an id no earlier user has |
| `Scenarios.DuplicateRegistrations` | tests/test_app.py:44-50 | after registering "student", the same username with another email and the same email with another username fail with the username and the email error |
| `Scenarios.BreadCycle` | tests/test_app.py:55-80 | add(2,3) gives 5, browse lists it, a read gives back the created record, edit to mul(4,5) gives 20, delete succeeds, and a read afterwards gives `NotFound` |
| `Scenarios.OwnershipProtection` | tests/test_app.py:100-105 | with u1 and u2 both registered and signed in, u2's read of u1's record gives `NotFound`, while u1's own read succeeds |
| `Scenarios.RejectsBadToken` | tests/test_app.py:88-90 | an undecodable token gives `InvalidToken` |
| `Scenarios.FactoryPaths` | tests/test_app.py:25-39 | the four create requests give 5, 6, 21 and 4 |
| `Scenarios.DivideByZeroValidation` | tests/test_app.py:107-119 | creating div(10,0) and editing a record to `{type: div, b: 0}` both give `InvalidOperand`, and a read afterwards gives exactly the record as created (add, `b == 5`, result 15) |

## Left out

- HTTP transport: routing, status codes (404, 422, 400, 401, 201, 204) and response serialisation. Errors are the `Error` datatype instead.
- Request parsing by the schema library: float and `EmailStr` parsing, and the collection of several validation errors into one response. `ValidateCreate` reports only the first failure: the tag error, then the divisor error.
- Extracting the bearer token from the `Authorization` header (no header gives 401). That is framework wiring; `GetCurrentUser` starts from the token string.
- The `security` module: bcrypt hashing, JWT signing and token expiry are not part of this model. They are the four arbitrary functions of `Security.Credentials`. Login issues exactly the claims `{"sub": username}`, so claims the real token might add, such as an expiry, are not represented.
- `models.py` and `database.py` are not part of this model. So the database's unique constraints on username and email are not modelled either. `CrudUsers.UserTable.CreateUser` inserts whatever it is given. Uniqueness comes from the guards in `UsersRouter.Register`, which keep `UniqueAccounts`.
- Sessions, `commit`/`refresh`, `get_db`, transactions and concurrent requests. Every operation is one atomic step on the tables.
- Id allocation: ids come from a counter above every id issued so far. SQLite may reuse the id of the most recently deleted row; that is not modelled.
- `CrudCalculations.CalculationTable.BrowseCalculations`: returns the user's records keyed by id, not as a list in database row order. The order of the list is not modelled.
- The `type` column: the source stores the tag's string value and parses it back with `CalculationType(...)`. The model stores the tag itself. `Schemas.ParseValue` is the round trip that makes the two equivalent.
- IEEE-754 floats: rounding, NaN, infinities and `-0.0` are not modelled. Operands and results are `real`, and zero is the only divisor the guards refuse.
- `app/main.py`: the demo HTML console, the application setup, schema creation and `seed_demo_user`. `DuplicateRegistrations` and `OwnershipProtection` register their own users. `FactoryPaths`, `BreadCycle` and `DivideByZeroValidation` take any caller in place of the demo or registered user, and their login step is not modelled.
- `tests/conftest.py`: only the test environment setup.
