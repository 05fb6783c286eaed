# User service: age-group classifier and handler outcomes

This project models the logic of a small FastAPI and Tortoise ORM service that
manages one resource, `User` (a name and an email). Almost all of the service
is framework or database plumbing. Two pieces make decisions of their own, and
this project models those two:

- `UserService.get_age_group` (`user_service.dfy`, module `UserService`). It
  classifies an integer age as `"underage"`, `"adult"` or `"senior"`, or
  raises `ValueError("Edad invalida")`. The model is a function from `int`
  (Python integers are unbounded) to `Outcome<AgeGroup>`. A returned value is
  a group, and `AgeGroup.Label()` gives its string. The lemmas check it
  against a separate definition: the inclusive ranges 1–17, 18–63 and 64 and
  above (`AgeGroup.Covers`).
- The three handlers of the user router (`user_controller.dfy`, module
  `UserController`). With the decorators removed, each handler turns the
  outcome of one service call into the outcome of the request:
  `Success(status, body)`, `HttpError(status, detail)`, `NoValue` (the handler
  returned `None`) or `Unhandled(exception)` (an exception escaped the
  handler). A `BaseException` that is not an `Exception`, such as the
  `CancelledError` of a cancelled await, is a separate kind of exception (`BaseOnly`),
  because `except Exception` does not catch it. The service call is an input to the handler:
  - `ListUsers` takes the outcome of `get_all`.
  - `CreateUser` takes the service's `create` as a function, so its contract
    fixes which arguments it is called with.
  - `GetUserGroup` calls the modelled classifier.

`outcomes.dfy` defines how a Python call can end (`Outcome`, `Exception`,
`Option`). `models.dfy` defines the `User` record.

The create handler's docstring says that a failure such as a duplicate email
becomes a 400 (src/controllers/user_controller.py:97). The code does not do
this. The service returns whatever `User.create` returns
(src/services/user_service.py:78), and on a duplicate email `User.create`
raises rather than returning `None`. The model follows the code:

- The 400 branch is taken only when the service yields `None`.
- `CreateNeverBadRequestWithoutNone` proves that this branch is never taken
  when the service never yields `None`. With such a service, a failed creation
  always leaves the handler as an exception (`Unhandled`).
- The status for that exception comes from the ORM's exception handlers,
  which are not part of this model.

## Model

| member | source | states |
|---|---|---|
| `UserService.GetAgeGroup` | src/services/user_service.py:24-34 | the classifier returns a group exactly when the age is positive; otherwise it raises `ValueError` with the message "Edad invalida"; a returned group's range contains the age |
| `UserService.GetAgeGroupMatchesRanges` | src/services/user_service.py:26-31 | for every age and every group, the classifier returns that group exactly when the age is in the group's inclusive range (1–17 underage, 18–63 adult, 64 and above senior) |
| `UserService.RangesPartitionPositiveAges` | src/services/user_service.py:26-34 | an age is in some range exactly when it is positive, and no age is in two ranges |
| `UserService.OutcomeIsOneOfFour` | src/services/user_service.py:26-34 | every age gets exactly one of four outcomes (the three groups or the "Edad invalida" error), and a returned label is one of "underage", "adult", "senior" |
| `UserService.LabelIdentifiesGroup` | src/services/user_service.py:27-31 | the three labels are distinct, so a returned string names exactly one group |
| `UserService.Boundaries` | src/services/user_service.py:26-33 | 0 → error "Edad invalida"; 1 and 17 → underage; 18 and 63 → adult; 64 → senior |
| `UserService.UnitTestCases` | src/tests/test_user_service.py:6-20 | the unit tests' cases: 10 and 17 → "underage", 35 → "adult", 70 → "senior", 0 → `ValueError("Edad invalida")` |
| `UserService.Monotonic` | src/services/user_service.py:26-31 | for valid ages a ≤ b, the group of a is not later than the group of b in the order underage < adult < senior |
| `UserController.ListUsers` | src/controllers/user_controller.py:46-70 | when the service returns, the handler returns that same list with status 200; when the service raises an `Exception`, the handler catches it and returns nothing; a `BaseException` that is not an `Exception` (such as the `CancelledError` of a cancelled await) escapes the handler unchanged; the handler never answers with an HTTP error |
| `UserController.CreateUser` | src/controllers/user_controller.py:75-117 | calls the service with the payload's name and email, in that order; answers 400 "No se pudo crear el usuario" exactly when the service yields `None`; returns the service's user, unchanged, with status 201 exactly when the service yields a user; lets the service's exception escape exactly when the service raises |
| `UserController.GetUserGroup` | src/controllers/user_controller.py:119-128 | for a positive age, a status-200 body with the single key "age_group" holding the classifier's label; for any other age, a 400 whose detail is the classifier's message "Edad invalida" |
| `UserController.GroupResponseByRange` | src/controllers/user_controller.py:119-128 | the route answers with a group's label exactly when the age is in that group's range, and with the 400 "Edad invalida" exactly when the age is in no range |
| `UserController.CreateNeverBadRequestWithoutNone` | src/controllers/user_controller.py:106-117 | if the service never yields `None` (the repository's own service returns the record or raises), the create route never answers 400: it returns the user or lets the exception escape |

## Left out

- Database access: `UserService.get_all` and `UserService.create` are single ORM calls (`User.all()`, `User.create()`). The handlers receive their outcomes as inputs instead.
- Field limits in `src/models.py`: the length limits, the unique email and the default ordering by name. The database enforces these, not the modelled code.
- The status the framework finally sends for `NoValue` and for `Unhandled`: a `None` checked against the list response model, or an ORM integrity error passed to the handlers that `register_tortoise` installs. These are framework behaviour.
- Response serialisation: the routes declare `response_model=list[UserIn]` and `response_model=UserIn`, so the framework sends only each user's name and email and drops `id`. The model stops at the value the handler returns.
- Payload validation (`EmailStr`, required fields) and query-parameter parsing of `age`: the schema library does these before a handler runs. `UserIn` stands for an already-validated payload.
- Application wiring and configuration: the FastAPI app, router mounting, `register_tortoise`, the root endpoint, environment variables and the `sys.path` setup. None of these make decisions of their own. One of them breaks the modelled module:
  - The controller imports `logger` from `src.config` (src/controllers/user_controller.py:14).
  - `src/config.py` defines only `APP_ENV`, `PORT` and `DATABASE_URL`, and no `logger`.
  - As written, importing the controller therefore raises `ImportError`. The router import in `src/main.py` fails with it, so none of the three handlers can be reached.
  - The model assumes the module loads with a working `logger`.
- Logging and `print` in `list_users`: the model takes `print` and `logger.exception` (src/controllers/user_controller.py:65, 69-70) to return normally, so the except branch ends by returning `None`. This holds only with a working `logger`, which `src/config.py` does not define (see the previous line). If that call raised, its exception would escape the handler instead, and the model does not capture that.
- Async suspension: the handlers' result does not depend on it.
- HTTP tests and fixtures in `src/tests/test_user.py` and `src/tests/conftest.py`. They exercise the framework and an in-memory database. They also expect a `/ping` route that `src/main.py` does not define, and a root message that differs from the one it returns.
