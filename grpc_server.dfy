/** The gRPC server for users: it turns requests into service calls and the
    service's users into protocol messages. Errors from the service are
    returned unchanged; only an empty username on delete is refused here. */
module GrpcServer {
  import opened Wrappers
  import opened Entities
  import opened DomainErrors
  import Services

  const DefaultLimit := 10
  const DefaultPage := 1
  const DefaultOrderBy := "id"
  const DefaultOrderDirection := "asc"

  /** The protocol's user message. */
  datatype ProtoUser = ProtoUser(
    id: int, login: string, nodeId: string, avatarUrl: string, url: string,
    htmlUrl: string, userType: string, userViewType: string, siteAdmin: bool)

  /** The protocol's list request; zero and empty mean "not set". */
  datatype ListUsersRequest = ListUsersRequest(limit: int, page: int, orderBy: string, orderDirection: string)

  /** The protocol's update request: the username to update and the patch. */
  datatype UpdateRequestMessage = UpdateRequestMessage(
    username: string, login: string, nodeId: string, avatarUrl: string, url: string,
    htmlUrl: string, userType: string, userViewType: string, siteAdmin: bool)

  /** `mapUserEntityToProto`: the nine fields, the id widened to 64 bits. */
  function ToProto(u: User): (p: ProtoUser)
    ensures FromProto(p) == u
  {
    ProtoUser(u.id, u.login, u.nodeId, u.avatarUrl, u.url, u.htmlUrl, u.userType, u.userViewType, u.siteAdmin)
  }

  /** Reading a message back as a user. */
  function FromProto(p: ProtoUser): User {
    User(p.login, p.id, p.nodeId, p.avatarUrl, p.url, p.htmlUrl, p.userType, p.userViewType, p.siteAdmin)
  }

  /** Every message is the mapping of the user read back from it, so the
      mapping is onto as well as one-to-one. */
  lemma FromProtoInvertsToProto(p: ProtoUser)
    ensures ToProto(FromProto(p)) == p
  {
  }

  /** No two users share a message, so the mapping loses nothing. */
  lemma ToProtoInjective(a: User, b: User)
    ensures ToProto(a) == ToProto(b) ==> a == b
  {
    if ToProto(a) == ToProto(b) {
      assert FromProto(ToProto(a)) == FromProto(ToProto(b));
    }
  }

  /** The options `ListUsers` builds: a zero limit or page and an empty column
      or direction take the defaults; every other value, negatives included,
      passes through. */
  function OptionsFromRequest(request: ListUsersRequest): (o: ListOptions)
    ensures o.limit == (if request.limit == 0 then DefaultLimit else request.limit)
    ensures o.page == (if request.page == 0 then DefaultPage else request.page)
    ensures o.orderBy == (if request.orderBy == "" then DefaultOrderBy else request.orderBy)
    ensures o.orderDirection == (if request.orderDirection == "" then DefaultOrderDirection else request.orderDirection)
    ensures o.orderBy != "" && o.orderDirection != ""
  {
    ListOptions(
      if request.limit == 0 then DefaultLimit else request.limit,
      if request.page == 0 then DefaultPage else request.page,
      if request.orderBy == "" then DefaultOrderBy else request.orderBy,
      if request.orderDirection == "" then DefaultOrderDirection else request.orderDirection)
  }

  /** `ListUsers`: resolve the options, ask the service, return its error as it
      is or map its users one by one, keeping their order. */
  method ListUsers(request: ListUsersRequest, serve: ListOptions -> Result<seq<User>, Error>)
    returns (options: ListOptions, r: Result<seq<ProtoUser>, Error>)
    ensures options == OptionsFromRequest(request)
    ensures serve(options).Err? ==> r == Err(serve(options).error)
    ensures serve(options).Ok? ==> r.Ok? && |r.value| == |serve(options).value|
    ensures serve(options).Ok? ==> forall k :: 0 <= k < |r.value| ==> r.value[k] == ToProto(serve(options).value[k])
    ensures serve(options).Ok? ==> forall k :: 0 <= k < |r.value| ==> FromProto(r.value[k]) == serve(options).value[k]
  {
    var limit := request.limit;
    if limit == 0 {
      limit := DefaultLimit;
    }
    var page := request.page;
    if page == 0 {
      page := DefaultPage;
    }
    var orderBy := request.orderBy;
    if orderBy == "" {
      orderBy := DefaultOrderBy;
    }
    var orderDirection := request.orderDirection;
    if orderDirection == "" {
      orderDirection := DefaultOrderDirection;
    }
    options := ListOptions(limit, page, orderBy, orderDirection);

    var listed := serve(options);
    if listed.Err? {
      return options, Err(listed.error);
    }
    var userEntities := listed.value;
    var protoUsers: seq<ProtoUser> := [];
    var i := 0;
    while i < |userEntities|
      invariant 0 <= i <= |userEntities|
      invariant |protoUsers| == i
      invariant forall k :: 0 <= k < i ==> protoUsers[k] == ToProto(userEntities[k])
    {
      protoUsers := protoUsers + [ToProto(userEntities[i])];
      i := i + 1;
    }
    r := Ok(protoUsers);
  }

  /** `GetUser`: the service's user as a message, or its error unchanged. */
  function GetUser(username: string, serve: string -> Result<User, Error>): (r: Result<ProtoUser, Error>)
    ensures r.Ok? <==> serve(username).Ok?
    ensures r.Ok? ==> FromProto(r.value) == serve(username).value
    ensures r.Err? ==> r.error == serve(username).error
  {
    match serve(username)
    case Err(e) => Err(e)
    case Ok(user) => Ok(ToProto(user))
  }

  /** The patch the service receives: the eight fields of the message as they are. */
  function PatchOf(request: UpdateRequestMessage): (update: UpdateUserRequest)
    ensures update.login == request.login && update.nodeId == request.nodeId &&
            update.avatarUrl == request.avatarUrl && update.url == request.url &&
            update.htmlUrl == request.htmlUrl && update.userType == request.userType &&
            update.userViewType == request.userViewType && update.siteAdmin == request.siteAdmin
  {
    UpdateUserRequest(request.login, request.nodeId, request.avatarUrl, request.url,
                      request.htmlUrl, request.userType, request.userViewType, request.siteAdmin)
  }

  /** `UpdateUser`: the service is asked to patch the user named in the message
      with the message's fields; its user comes back as a message, its error unchanged. */
  function UpdateUser(request: UpdateRequestMessage, serve: (string, UpdateUserRequest) -> Result<User, Error>)
    : (r: Result<ProtoUser, Error>)
    ensures r.Ok? <==> serve(request.username, PatchOf(request)).Ok?
    ensures r.Ok? ==> FromProto(r.value) == serve(request.username, PatchOf(request)).value
    ensures r.Err? ==> r.error == serve(request.username, PatchOf(request)).error
  {
    var updateRequest := PatchOf(request);
    match serve(request.username, updateRequest)
    case Err(e) => Err(e)
    case Ok(user) => Ok(ToProto(user))
  }

  /** Through the current service, an update message patches the stored user
      exactly as the same patch sent over HTTP would: a field left empty in the
      message keeps the stored value. */
  lemma UpdateMessageKeepsEmptyFields(existing: User, request: UpdateRequestMessage)
    ensures var u := Services.ApplyUpdate(existing, PatchOf(request));
      u.login == (if request.login != "" then request.login else existing.login) &&
      u.nodeId == (if request.nodeId != "" then request.nodeId else existing.nodeId) &&
      u.avatarUrl == (if request.avatarUrl != "" then request.avatarUrl else existing.avatarUrl) &&
      u.url == (if request.url != "" then request.url else existing.url) &&
      u.htmlUrl == (if request.htmlUrl != "" then request.htmlUrl else existing.htmlUrl) &&
      u.userType == (if request.userType != "" then request.userType else existing.userType) &&
      u.userViewType == (if request.userViewType != "" then request.userViewType else existing.userViewType)
    ensures Services.ApplyUpdate(existing, PatchOf(request)).id == existing.id
    ensures Services.ApplyUpdate(existing, PatchOf(request)).siteAdmin == request.siteAdmin
  {
  }

  const UsernameRequired := New(CodeValidation, "username is required")

  /** `DeleteUser`: an empty username is a validation error and the service is
      not asked; otherwise the service's error, or the username echoed back. */
  function DeleteUser(username: string, serve: string -> Option<Error>): (r: Result<string, Error>)
    ensures username == "" ==> r == Err(UsernameRequired)
    ensures username != "" && serve(username).Some? ==> r == Err(serve(username).value)
    ensures username != "" && serve(username).None? ==> r == Ok(username)
  {
    if username == "" then Err(UsernameRequired)
    else
      match serve(username)
      case Some(e) => Err(e)
      case None => Ok(username)
  }

  /** The refusal of an empty username carries the validation code and does
      not depend on the service at all. */
  lemma EmptyUsernameRefused(serve: string -> Option<Error>, other: string -> Option<Error>)
    ensures DeleteUser("", serve) == DeleteUser("", other)
    ensures DeleteUser("", serve).Err? && IsCode(DeleteUser("", serve).error, CodeValidation)
  {
  }

  /** The options that reach the repository through the server and the service:
      the limit and page are positive, a negative one becoming the service's
      default, and the direction is never the service's "ASC" default, since
      the server already filled an empty one with "asc". */
  lemma OptionsReachingRepository(request: ListUsersRequest)
    ensures var o := Services.NormalizeListOptions(OptionsFromRequest(request));
      o.limit == (if request.limit > 0 then request.limit else DefaultLimit) &&
      o.page == (if request.page > 0 then request.page else DefaultPage) &&
      o.orderDirection == (if request.orderDirection == "" then DefaultOrderDirection else request.orderDirection) &&
      o == OptionsFromRequest(request).(limit := o.limit, page := o.page)
  {
  }
}
