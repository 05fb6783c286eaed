/**
 * The user router's handlers with the web framework stripped away: each one
 * is a function from the outcome of the service call it makes to the outcome
 * of the HTTP request. Routing, payload validation, serialisation, logging
 * and printing belong to the framework and are not modelled.
 */
module UserController {
  import opened Outcomes
  import opened Models
  import opened UserService

  const StatusOk: int := 200
  const StatusCreated: int := 201
  const StatusBadRequest: int := 400

  /** The detail of the 400 answer when the service yields no user. */
  const CreateFailedDetail: string := "No se pudo crear el usuario"

  /** The one key of the body returned by the age-group route. */
  const AgeGroupKey: string := "age_group"

  /** The validated payload of the create route: a name and an email. */
  datatype UserIn = UserIn(name: string, email: string)

  /** How a handler ends, as the framework receives it. */
  datatype Response<+T> =
      // the handler returned a value; the route's status is sent with it
    | Success(status: int, body: T)
      // the handler raised an `HTTPException`
    | HttpError(status: int, detail: string)
      // the handler returned `None`
    | NoValue
      // an exception escaped the handler and is left to the framework
    | Unhandled(error: Exception)

  /**
   * `list_users`: returns the service's list with the route's 200 status; if
   * the service raises an `Exception`, it is caught and nothing is returned,
   * while a `BaseException` that is not an `Exception` passes through.
   */
  function ListUsers(service: Outcome<seq<User>>): (r: Response<seq<User>>)
    ensures r.Success? <==> service.Returned?
    ensures r.Success? ==> r.status == StatusOk && r.body == service.value
    ensures r.NoValue? <==> service.Raised? && !service.error.BaseOnly?
    ensures r.Unhandled? <==> service.Raised? && service.error.BaseOnly?
    ensures r.Unhandled? ==> service == Raised(r.error)
    ensures !r.HttpError?
  {
    match service
    case Returned(users) => Success(StatusOk, users)
    case Raised(error) =>
      // `except Exception` does not catch `BaseException`-only classes
      if error.BaseOnly? then Unhandled(error) else NoValue
  }

  /**
   * `create_user`: calls the service `create` with the payload's name and
   * email; a `None` answer becomes a 400, a user is returned with the route's
   * 201 status, and an exception from the service is not caught.
   */
  function CreateUser(payload: UserIn, create: (string, string) -> Outcome<Option<User>>): (r: Response<User>)
    ensures r == HttpError(StatusBadRequest, CreateFailedDetail) <==> create(payload.name, payload.email) == Returned(None)
    ensures r.Success? <==> create(payload.name, payload.email).Returned? && create(payload.name, payload.email).value.Some?
    ensures r.Success? ==> r.status == StatusCreated && create(payload.name, payload.email) == Returned(Some(r.body))
    ensures r.Unhandled? <==> create(payload.name, payload.email).Raised?
    ensures r.Unhandled? ==> create(payload.name, payload.email) == Raised(r.error)
    ensures !r.NoValue?
  {
    var outcome := create(payload.name, payload.email);
    match outcome
    case Raised(e) => Unhandled(e)
    case Returned(user) =>
      if user.None? then HttpError(StatusBadRequest, CreateFailedDetail)
      else Success(StatusCreated, user.value)
  }

  /**
   * `get_user_group`: a one-key body holding the classifier's label, or a 400
   * whose detail is the text of the classifier's `ValueError`.
   */
  function GetUserGroup(age: int): (r: Response<map<string, string>>)
    ensures r.Success? <==> 0 < age
    ensures 0 < age ==> r == Success(StatusOk, map[AgeGroupKey := GetAgeGroup(age).value.Label()])
    ensures age <= 0 ==> r == HttpError(StatusBadRequest, InvalidAgeMessage)
  {
    match GetAgeGroup(age)
    case Returned(group) => Success(StatusOk, map[AgeGroupKey := group.Label()])
    case Raised(error) =>
      if error.ValueError? then HttpError(StatusBadRequest, error.Text())
      else Unhandled(error)
  }

  /**
   * The age-group route answers with a group's label exactly when the age
   * lies in that group's range, and with "Edad invalida" exactly when the age
   * lies in no range.
   */
  lemma GroupResponseByRange(age: int, g: AgeGroup)
    ensures GetUserGroup(age) == Success(StatusOk, map[AgeGroupKey := g.Label()]) <==> g.Covers(age)
    ensures GetUserGroup(age) == HttpError(StatusBadRequest, "Edad invalida") <==> forall h: AgeGroup :: !h.Covers(age)
  {
    GetAgeGroupMatchesRanges(age, g);
    if GetUserGroup(age) == Success(StatusOk, map[AgeGroupKey := g.Label()]) {
      // the body's only entry is the classifier's label, and a label names its group
      var c := GetAgeGroup(age).value;
      assert map[AgeGroupKey := c.Label()][AgeGroupKey] == g.Label();
      LabelIdentifiesGroup(c, g);
    }
  }

  /**
   * With a service that never answers `None` (the repository's service
   * returns the created record or raises), the 400 branch of the create route
   * is never taken: a failed creation leaves the handler as an exception.
   */
  lemma CreateNeverBadRequestWithoutNone(payload: UserIn, create: (string, string) -> Outcome<Option<User>>)
    requires forall name, email :: create(name, email) != Returned(None)
    ensures !CreateUser(payload, create).HttpError?
    ensures CreateUser(payload, create).Success? || CreateUser(payload, create).Unhandled?
  {
  }
}
