/** The HTTP controller for users: it reads the query string and path, calls
    the user service and either answers 200 with a body or records an error
    for the error middleware to turn into the reply.

    The service is a parameter of each handler (a total function from its
    arguments to its result), so "the service is not called" is stated as
    "the result does not depend on the service". */
module UserController {
  import opened Wrappers
  import opened Entities
  import opened DomainErrors
  import opened ErrorMiddleware
  import Services
  import GenericRepository

  const StatusOK := 200

  const DefaultLimit := 10
  const DefaultPage := 1
  const DefaultOrderBy := "id"
  const DefaultOrderDirection := "asc"

  const MinInt64 := -0x8000_0000_0000_0000
  const MaxInt64 := 0x7fff_ffff_ffff_ffff

  /** The query string of a request: parameter name to value (the first value
      when a parameter is repeated). */
  type Query = map<string, string>

  /** What a handler leaves behind: a 200 answer with its body, or an error
      recorded on the request context. */
  datatype Handled<+T> = Responded(body: T) | Recorded(error: Error)

  // ---------------------------------------------------------------------------
  // Query parameters

  /** gin's `DefaultQuery`: the value when the parameter is present (even when
      it is empty), otherwise the default. */
  function DefaultQuery(query: Query, key: string, default: string): (value: string)
    ensures value == default || value in query.Values
    ensures key in query ==> value in query.Values
  {
    if key in query then query[key] else default
  }

  predicate IsDigit(c: char) {
    '0' <= c <= '9'
  }

  predicate AllDigits(s: string) {
    forall i :: 0 <= i < |s| ==> IsDigit(s[i])
  }

  /** `strconv.Atoi`: an optional sign and at least one decimal digit, whose
      value fits a 64-bit int; anything else is an error. */
  function Atoi(s: string): (r: Option<int>)
    ensures r.Some? ==> MinInt64 <= r.value <= MaxInt64
    ensures r.Some? ==> |s| > 0 && (IsDigit(s[0]) || s[0] == '+' || s[0] == '-')
  {
    var negative := |s| > 0 && s[0] == '-';
    var digits := if |s| > 0 && (s[0] == '+' || s[0] == '-') then s[1..] else s;
    if |digits| == 0 || !AllDigits(digits) then None
    else
      var magnitude := GenericRepository.DigitsValue(digits);
      var value := if negative then -magnitude else magnitude;
      if MinInt64 <= value <= MaxInt64 then Some(value) else None
  }

  lemma {:induction false} FormatNatIsDigits(n: nat)
    ensures AllDigits(GenericRepository.FormatNat(n))
  {
    if n >= 10 {
      FormatNatIsDigits(n / 10);
    }
  }

  /** Every 64-bit integer written in decimal reads back as itself. */
  lemma AtoiReadsDecimal(n: int)
    requires MinInt64 <= n <= MaxInt64
    ensures Atoi(GenericRepository.FormatInt(n)) == Some(n)
  {
    GenericRepository.FormatIntRoundTrip(n);
    if n < 0 {
      FormatNatIsDigits(-n);
      GenericRepository.FormatNatRoundTrip(-n);
      assert GenericRepository.FormatInt(n)[1..] == GenericRepository.FormatNat(-n);
    } else {
      FormatNatIsDigits(n);
      GenericRepository.FormatNatRoundTrip(n);
      assert IsDigit(GenericRepository.FormatNat(n)[0]);
    }
  }

  /** An integer parameter: its parsed value when present and parsable, the
      default otherwise (an empty or malformed value is not an error). */
  function QueryInt(query: Query, key: string, default: int): (v: int)
    ensures key in query && Atoi(query[key]).Some? ==> v == Atoi(query[key]).value
    ensures key !in query || Atoi(query[key]).None? ==> v == default
  {
    if key in query && query[key] != "" then
      match Atoi(query[key])
      case Some(parsed) => parsed
      case None => default
    else default
  }

  /** The options `ListUsers` hands to the service. */
  function ListOptionsFromQuery(query: Query): (o: ListOptions)
    ensures o.limit == QueryInt(query, "limit", DefaultLimit)
    ensures o.page == QueryInt(query, "page", DefaultPage)
    ensures o.orderBy == DefaultQuery(query, "orderby", DefaultOrderBy)
    ensures o.orderDirection == DefaultQuery(query, "order", DefaultOrderDirection)
  {
    ListOptions(QueryInt(query, "limit", DefaultLimit), QueryInt(query, "page", DefaultPage),
                DefaultQuery(query, "orderby", DefaultOrderBy), DefaultQuery(query, "order", DefaultOrderDirection))
  }

  // ---------------------------------------------------------------------------
  // Handlers

  /** `ListUsers`: resolve the options from the query, ask the service, answer
      with its list or record its error unchanged. */
  method ListUsers(query: Query, serve: ListOptions -> Result<seq<User>, Error>)
    returns (options: ListOptions, h: Handled<seq<User>>)
    ensures options == ListOptionsFromQuery(query)
    ensures h.Responded? <==> serve(options).Ok?
    ensures h.Responded? ==> h.body == serve(options).value
    ensures h.Recorded? ==> h.error == serve(options).error
  {
    var limit := DefaultLimit;
    var page := DefaultPage;
    var sortColumn := DefaultQuery(query, "orderby", DefaultOrderBy);
    var sortDirection := DefaultQuery(query, "order", DefaultOrderDirection);

    var limitValue := DefaultQuery(query, "limit", "");
    if limitValue != "" {
      var parsed := Atoi(limitValue);
      if parsed.Some? {
        limit := parsed.value;
      }
    }
    var pageValue := DefaultQuery(query, "page", "");
    if pageValue != "" {
      var parsed := Atoi(pageValue);
      if parsed.Some? {
        page := parsed.value;
      }
    }

    options := ListOptions(limit, page, sortColumn, sortDirection);
    var listed := serve(options);
    if listed.Err? {
      h := Recorded(listed.error);
    } else {
      h := Responded(listed.value);
    }
  }

  /** `GetUser`: a not-found error from the service is recorded as it is; any
      other error is wrapped as an internal error. */
  function GetUser(username: string, serve: string -> Result<User, Error>): (h: Handled<User>)
    ensures serve(username).Ok? ==> h == Responded(serve(username).value)
    ensures serve(username).Err? && IsCode(serve(username).error, CodeNotFound) ==>
      h == Recorded(serve(username).error)
    ensures serve(username).Err? && !IsCode(serve(username).error, CodeNotFound) ==>
      h == Recorded(Wrap(CodeInternal, "failed to get user", Some(serve(username).error)))
  {
    match serve(username)
    case Ok(user) => Responded(user)
    case Err(e) =>
      if IsCode(e, CodeNotFound) then Recorded(e)
      else Recorded(Wrap(CodeInternal, "failed to get user", Some(e)))
  }

  /** `UpdateUser`: a body that does not bind is a validation error and the
      service is not asked; a service error is wrapped as an internal error. */
  function UpdateUser(username: string, bound: Result<UpdateUserRequest, Error>,
                      serve: (string, UpdateUserRequest) -> Result<User, Error>): (h: Handled<User>)
    ensures bound.Err? ==> h == Recorded(Wrap(CodeValidation, "invalid request payload", Some(bound.error)))
    ensures bound.Ok? && serve(username, bound.value).Ok? ==> h == Responded(serve(username, bound.value).value)
    ensures bound.Ok? && serve(username, bound.value).Err? ==>
      h == Recorded(Wrap(CodeInternal, "failed to update user", Some(serve(username, bound.value).error)))
  {
    match bound
    case Err(bindError) => Recorded(Wrap(CodeValidation, "invalid request payload", Some(bindError)))
    case Ok(request) =>
      match serve(username, request)
      case Err(updateError) => Recorded(Wrap(CodeInternal, "failed to update user", Some(updateError)))
      case Ok(user) => Responded(user)
  }

  /** `DeleteUser`: a service error is wrapped as an internal error; success
      answers with the username from the path. */
  function DeleteUser(username: string, serve: string -> Option<Error>): (h: Handled<string>)
    ensures serve(username).None? ==> h == Responded(username)
    ensures serve(username).Some? ==>
      h == Recorded(Wrap(CodeInternal, "failed to delete user", Some(serve(username).value)))
  {
    match serve(username)
    case Some(deleteError) => Recorded(Wrap(CodeInternal, "failed to delete user", Some(deleteError)))
    case None => Responded(username)
  }

  // ---------------------------------------------------------------------------
  // Handlers and middleware together

  /** The status of the reply: 200 for an answer, otherwise the status the
      middleware maps the recorded error to. */
  function StatusOf<T>(h: Handled<T>): int {
    match h
    case Responded(_) => StatusOK
    case Recorded(e) => MapErrorToResponse(e).status
  }

  /** The message of an error reply (empty for an answer). */
  function MessageOf<T>(h: Handled<T>): string {
    match h
    case Responded(_) => ""
    case Recorded(e) => MapErrorToResponse(e).body.message
  }

  /** A missing user reaches the client as 404 with its own message; every
      other service error, whatever its code, as 500 with the fixed message. */
  lemma GetUserReply(username: string, serve: string -> Result<User, Error>)
    ensures serve(username).Ok? ==> StatusOf(GetUser(username, serve)) == StatusOK
    ensures serve(username).Err? ==>
      (StatusOf(GetUser(username, serve)) == StatusNotFound <==> IsCode(serve(username).error, CodeNotFound))
    ensures serve(username).Err? && IsCode(serve(username).error, CodeNotFound) ==>
      MessageOf(GetUser(username, serve)) == AsDomain(serve(username).error).value.message
    ensures serve(username).Err? && !IsCode(serve(username).error, CodeNotFound) ==>
      StatusOf(GetUser(username, serve)) == StatusInternalServerError &&
      MessageOf(GetUser(username, serve)) == InternalErrorMessage
  {
    match serve(username)
    case Ok(_) =>
    case Err(e) =>
      StatusMatchesCode(e);
      if !IsCode(e, CodeNotFound) {
        WrapDecidesCode(CodeInternal, "failed to get user", Some(e), CodeNotFound);
      }
  }

  /** A body that does not bind reaches the client as 400 "invalid request
      payload" whatever the service would do; any service error, a missing user
      included, as 500 with the fixed message. */
  lemma UpdateUserReply(username: string, bound: Result<UpdateUserRequest, Error>,
                        serve: (string, UpdateUserRequest) -> Result<User, Error>,
                        other: (string, UpdateUserRequest) -> Result<User, Error>)
    ensures bound.Err? ==>
      StatusOf(UpdateUser(username, bound, serve)) == StatusBadRequest &&
      MessageOf(UpdateUser(username, bound, serve)) == "invalid request payload" &&
      UpdateUser(username, bound, serve) == UpdateUser(username, bound, other)
    ensures bound.Ok? && serve(username, bound.value).Ok? ==> StatusOf(UpdateUser(username, bound, serve)) == StatusOK
    ensures bound.Ok? && serve(username, bound.value).Err? ==>
      StatusOf(UpdateUser(username, bound, serve)) == StatusInternalServerError &&
      MessageOf(UpdateUser(username, bound, serve)) == InternalErrorMessage
  {
  }

  /** A failed delete reaches the client as 500 with the fixed message. */
  lemma DeleteUserReply(username: string, serve: string -> Option<Error>)
    ensures serve(username).None? ==> StatusOf(DeleteUser(username, serve)) == StatusOK
    ensures serve(username).Some? ==>
      StatusOf(DeleteUser(username, serve)) == StatusInternalServerError &&
      MessageOf(DeleteUser(username, serve)) == InternalErrorMessage
  {
  }

  /** The options that reach the repository through the controller and the
      service: a positive limit and page always, the requested values when they
      parse and are positive, and a direction that is "asc" when the parameter
      is absent but "ASC" when it is present and empty. */
  lemma ListOptionsReachingRepository(query: Query)
    ensures var o := Services.NormalizeListOptions(ListOptionsFromQuery(query));
      o.limit > 0 && o.page > 0 &&
      o.limit == (if "limit" in query && Atoi(query["limit"]).Some? && Atoi(query["limit"]).value > 0
                  then Atoi(query["limit"]).value else DefaultLimit) &&
      o.page == (if "page" in query && Atoi(query["page"]).Some? && Atoi(query["page"]).value > 0
                 then Atoi(query["page"]).value else DefaultPage) &&
      o.orderBy == (if "orderby" in query && query["orderby"] != "" then query["orderby"] else DefaultOrderBy) &&
      o.orderDirection == (if "order" !in query then DefaultOrderDirection
                           else if query["order"] == "" then Services.DefaultOrderDirection
                           else query["order"])
  {
  }

  /** A limit that is not a number leaves the default in place and the other
      parameters are used as given. */
  lemma MalformedLimitKeepsDefault()
    ensures ListOptionsFromQuery(map["limit" := "notANumber", "page" := "2", "orderby" := "login", "order" := "desc"])
      == ListOptions(10, 2, "login", "desc")
  {
    assert !IsDigit("notANumber"[0]);
    assert GenericRepository.DigitsValue("2") == 2 by {
      assert "2"[..0] == [];
    }
  }
}
