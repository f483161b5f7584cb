/** The application's user service: listing with normalised options, a
    read-through cache in front of the upstream for single users, a partial
    update (read, patch, write back, refresh the cache) and a delete that
    invalidates the cache.

    The repository is a map from id to stored user (the table is keyed by id)
    with a lookup by login; the cache is a map from login to user; the upstream
    client and every failure of a collaborator are parameters of the call. */
module Services {
  import opened Wrappers
  import opened Entities
  import opened DomainErrors

  const DefaultLimit := 10
  const DefaultPage := 1
  const DefaultOrderBy := "id"
  const DefaultOrderDirection := "ASC"

  /** The error the repository returns when no row has the login. */
  const NoRows := Plain("sql: no rows in result set", None)

  // ---------------------------------------------------------------------------
  // Listing

  /** Options the repository can use as they are. */
  predicate IsNormal(options: ListOptions) {
    options.limit > 0 && options.page > 0 && options.orderBy != "" && options.orderDirection != ""
  }

  /** `List`'s defaults: a limit or page that is not positive, and an empty
      column or direction, are replaced; every other value is kept. */
  function NormalizeListOptions(options: ListOptions): (n: ListOptions)
    ensures IsNormal(n)
    ensures n.limit == (if options.limit > 0 then options.limit else DefaultLimit)
    ensures n.page == (if options.page > 0 then options.page else DefaultPage)
    ensures n.orderBy == (if options.orderBy != "" then options.orderBy else DefaultOrderBy)
    ensures n.orderDirection == (if options.orderDirection != "" then options.orderDirection else DefaultOrderDirection)
  {
    var limit := if options.limit <= 0 then DefaultLimit else options.limit;
    var page := if options.page <= 0 then DefaultPage else options.page;
    var orderBy := if options.orderBy == "" then DefaultOrderBy else options.orderBy;
    var orderDirection := if options.orderDirection == "" then DefaultOrderDirection else options.orderDirection;
    ListOptions(limit, page, orderBy, orderDirection)
  }

  /** Normalising leaves normal options alone and only those, so it is idempotent. */
  lemma NormalizeFixesExactlyNormal(options: ListOptions)
    ensures NormalizeListOptions(options) == options <==> IsNormal(options)
    ensures NormalizeListOptions(NormalizeListOptions(options)) == NormalizeListOptions(options)
  {
  }

  // ---------------------------------------------------------------------------
  // Mapping and patching

  /** The user `Get` builds from an upstream entry: every field but the view type. */
  function FetchedUser(g: GitHubUser): (u: User)
    ensures u == CopyAll(g).(userViewType := "")
  {
    User(g.login, g.id, g.nodeId, g.avatarUrl, g.url, g.htmlUrl, g.userType, "", g.siteAdmin)
  }

  /** One string field under the patch: an empty request keeps the stored value. */
  function Patched(stored: string, requested: string): string {
    if requested == "" then stored else requested
  }

  /** The partial patch: a non-empty request string replaces the stored one, an
      empty one keeps it; the admin flag is always taken from the request and
      the id is never touched. */
  function ApplyUpdate(existing: User, update: UpdateUserRequest): (u: User)
    ensures u.id == existing.id
    ensures u.login == (if update.login != "" then update.login else existing.login)
    ensures u.nodeId == (if update.nodeId != "" then update.nodeId else existing.nodeId)
    ensures u.avatarUrl == (if update.avatarUrl != "" then update.avatarUrl else existing.avatarUrl)
    ensures u.url == (if update.url != "" then update.url else existing.url)
    ensures u.htmlUrl == (if update.htmlUrl != "" then update.htmlUrl else existing.htmlUrl)
    ensures u.userType == (if update.userType != "" then update.userType else existing.userType)
    ensures u.userViewType == (if update.userViewType != "" then update.userViewType else existing.userViewType)
    ensures u.siteAdmin == update.siteAdmin
  {
    existing.(
      login := Patched(existing.login, update.login),
      nodeId := Patched(existing.nodeId, update.nodeId),
      avatarUrl := Patched(existing.avatarUrl, update.avatarUrl),
      url := Patched(existing.url, update.url),
      htmlUrl := Patched(existing.htmlUrl, update.htmlUrl),
      userType := Patched(existing.userType, update.userType),
      userViewType := Patched(existing.userViewType, update.userViewType),
      siteAdmin := update.siteAdmin)
  }

  /** Applying the same patch twice is applying it once; a patch with only
      empty strings changes nothing but the admin flag. */
  lemma ApplyUpdateIdempotent(existing: User, update: UpdateUserRequest)
    ensures ApplyUpdate(ApplyUpdate(existing, update), update) == ApplyUpdate(existing, update)
    ensures update.login == "" && update.nodeId == "" && update.avatarUrl == "" && update.url == "" &&
            update.htmlUrl == "" && update.userType == "" && update.userViewType == "" ==>
            ApplyUpdate(existing, update) == existing.(siteAdmin := update.siteAdmin)
  {
  }

  /** The field-by-field patch `Update` applies to the user it read. */
  method PatchFields(existing: User, update: UpdateUserRequest) returns (patched: User)
    ensures patched == ApplyUpdate(existing, update)
  {
    patched := existing;
    if update.login != "" {
      patched := patched.(login := update.login);
    }
    if update.nodeId != "" {
      patched := patched.(nodeId := update.nodeId);
    }
    if update.avatarUrl != "" {
      patched := patched.(avatarUrl := update.avatarUrl);
    }
    if update.url != "" {
      patched := patched.(url := update.url);
    }
    if update.htmlUrl != "" {
      patched := patched.(htmlUrl := update.htmlUrl);
    }
    if update.userType != "" {
      patched := patched.(userType := update.userType);
    }
    if update.userViewType != "" {
      patched := patched.(userViewType := update.userViewType);
    }
    patched := patched.(siteAdmin := update.siteAdmin);
  }

  // ---------------------------------------------------------------------------
  // The repository

  /** Every row is stored under its own id. */
  ghost predicate KeyedById(rows: map<int, User>) {
    forall id :: id in rows ==> rows[id].id == id
  }

  predicate HasLogin(rows: map<int, User>, login: string) {
    exists id :: id in rows && rows[id].login == login
  }

  /** The rows left once every row with the login is deleted. */
  function WithoutLogin(rows: map<int, User>, login: string): map<int, User> {
    map id | id in rows && rows[id].login != login :: rows[id]
  }

  /** Deleting by login removes exactly the rows with that login and keeps the
      rest as they were, still keyed by id. */
  lemma WithoutLoginRemovesExactly(rows: map<int, User>, login: string)
    requires KeyedById(rows)
    ensures forall id :: id in WithoutLogin(rows, login) <==> id in rows && rows[id].login != login
    ensures forall id :: id in WithoutLogin(rows, login) ==> WithoutLogin(rows, login)[id] == rows[id]
    ensures !HasLogin(WithoutLogin(rows, login), login)
    ensures KeyedById(WithoutLogin(rows, login))
  {
  }

  /** Upserting a user under its id keeps the rows keyed by id. */
  lemma UpsertKeepsKeyedById(rows: map<int, User>, u: User)
    requires KeyedById(rows)
    ensures KeyedById(rows[u.id := u])
    ensures u.id in rows[u.id := u] && rows[u.id := u][u.id] == u
  {
  }

  /** The repository's lookup by login: some row with the login, or the no-rows error. */
  method GetByLogin(rows: map<int, User>, login: string, readFault: Option<Error>) returns (r: Result<User, Error>)
    ensures readFault.Some? ==> r == Err(readFault.value)
    ensures readFault.None? ==> (r.Ok? <==> HasLogin(rows, login))
    ensures readFault.None? && r.Err? ==> r.error == NoRows
    ensures r.Ok? ==> r.value in rows.Values && r.value.login == login
  {
    if readFault.Some? {
      return Err(readFault.value);
    }
    if HasLogin(rows, login) {
      var id :| id in rows && rows[id].login == login;
      r := Ok(rows[id]);
    } else {
      r := Err(NoRows);
    }
  }

  // ---------------------------------------------------------------------------
  // The service

  class UserService {
    /** The repository: stored users by id. */
    var rows: map<int, User>
    /** The cache: users by login (empty when the service has no cache). */
    var cache: map<string, User>
    /** Whether a cache was given to the service. */
    const hasCache: bool
    /** The logins asked of the upstream, in order. */
    var fetchCalls: seq<string>
    /** The options handed to the repository's list, in order. */
    var listCalls: seq<ListOptions>

    ghost predicate Valid()
      reads this
    {
      KeyedById(rows) && (!hasCache ==> cache == map[])
    }

    constructor (rows0: map<int, User>, hasCache: bool, cache0: map<string, User>)
      requires KeyedById(rows0)
      ensures Valid()
      ensures this.hasCache == hasCache && rows == rows0
      ensures cache == (if hasCache then cache0 else map[])
      ensures fetchCalls == [] && listCalls == []
    {
      rows := rows0;
      this.hasCache := hasCache;
      cache := if hasCache then cache0 else map[];
      fetchCalls := [];
      listCalls := [];
    }

    /** The cache answers a read for the login. */
    predicate CacheHit(username: string, cacheReadFails: bool)
      reads this
    {
      hasCache && !cacheReadFails && username in cache
    }

    /** `List`: the repository gets the normalised options and its answer is returned as it is. */
    method List(options: ListOptions, listed: Result<seq<User>, Error>) returns (r: Result<seq<User>, Error>)
      modifies this`listCalls
      ensures listCalls == old(listCalls) + [NormalizeListOptions(options)]
      ensures IsNormal(listCalls[|listCalls| - 1])
      ensures r == listed
    {
      var normalized := options;
      if normalized.limit <= 0 {
        normalized := normalized.(limit := DefaultLimit);
      }
      if normalized.page <= 0 {
        normalized := normalized.(page := DefaultPage);
      }
      if normalized.orderBy == "" {
        normalized := normalized.(orderBy := DefaultOrderBy);
      }
      if normalized.orderDirection == "" {
        normalized := normalized.(orderDirection := DefaultOrderDirection);
      }
      listCalls := listCalls + [normalized];
      r := listed;
    }

    /** `Get`: a cache hit answers at once; otherwise the upstream is asked, its
        error returned, or its user mapped, cached under the fetched login (a
        failed cache write is ignored) and returned. */
    method Get(username: string, cacheReadFails: bool, fetched: Result<GitHubUser, Error>, cacheWriteFails: bool)
      returns (r: Result<User, Error>)
      requires Valid()
      modifies this`cache, this`fetchCalls
      ensures Valid()
      ensures old(CacheHit(username, cacheReadFails)) ==>
        r == Ok(old(cache)[username]) && cache == old(cache) && fetchCalls == old(fetchCalls)
      ensures !old(CacheHit(username, cacheReadFails)) ==> fetchCalls == old(fetchCalls) + [username]
      ensures !old(CacheHit(username, cacheReadFails)) && fetched.Err? ==>
        r == Err(fetched.error) && cache == old(cache)
      ensures !old(CacheHit(username, cacheReadFails)) && fetched.Ok? ==>
        r == Ok(FetchedUser(fetched.value)) &&
        cache == if hasCache && !cacheWriteFails then old(cache)[r.value.login := r.value] else old(cache)
    {
      if hasCache {
        if !cacheReadFails && username in cache {
          return Ok(cache[username]);
        }
      }
      fetchCalls := fetchCalls + [username];
      if fetched.Err? {
        return Err(fetched.error);
      }
      var g := fetched.value;
      var user := User(g.login, g.id, g.nodeId, g.avatarUrl, g.url, g.htmlUrl, g.userType, "", g.siteAdmin);
      if hasCache && !cacheWriteFails {
        cache := cache[user.login := user];
      }
      r := Ok(user);
    }

    /** `Update`: read the row by login, patch it field by field, write it back
        under its id, then refresh the cache; a failed read or write returns its
        error and writes nothing further. */
    method Update(username: string, update: UpdateUserRequest, readFault: Option<Error>,
                  writeFault: Option<Error>, cacheWriteFails: bool)
      returns (r: Result<User, Error>, ghost found: Option<User>)
      requires Valid()
      modifies this`rows, this`cache
      ensures Valid()
      ensures readFault.Some? ==> found.None? && r == Err(readFault.value)
      ensures readFault.None? ==> (found.Some? <==> HasLogin(old(rows), username))
      ensures found.Some? ==> found.value in old(rows).Values && found.value.login == username
      ensures found.None? ==> r.Err? && rows == old(rows) && cache == old(cache)
      ensures readFault.None? && found.None? ==> r == Err(NoRows)
      ensures found.Some? && writeFault.Some? ==> r == Err(writeFault.value) && rows == old(rows) && cache == old(cache)
      ensures found.Some? && writeFault.None? ==>
        r == Ok(ApplyUpdate(found.value, update)) &&
        rows == old(rows)[found.value.id := r.value] &&
        cache == if hasCache && !cacheWriteFails then old(cache)[r.value.login := r.value] else old(cache)
    {
      var existing := GetByLogin(rows, username, readFault);
      if existing.Err? {
        return Err(existing.error), None;
      }
      found := Some(existing.value);
      var existingUser := PatchFields(existing.value, update);

      if writeFault.Some? {
        return Err(writeFault.value), found;
      }
      UpsertKeepsKeyedById(rows, existingUser);
      rows := rows[existingUser.id := existingUser];
      if hasCache && !cacheWriteFails {
        cache := cache[existingUser.login := existingUser];
      }
      r := Ok(existingUser);
    }

    /** `Delete`: delete the rows with the login; only when that succeeds is the
        cache entry dropped (a failed cache delete is ignored). */
    method Delete(username: string, deleteFault: Option<Error>, cacheDeleteFails: bool) returns (r: Option<Error>)
      requires Valid()
      modifies this`rows, this`cache
      ensures Valid()
      ensures deleteFault.Some? ==> r == deleteFault && rows == old(rows) && cache == old(cache)
      ensures deleteFault.None? ==> r.None? && rows == WithoutLogin(old(rows), username)
      ensures deleteFault.None? ==>
        cache == if hasCache && !cacheDeleteFails then old(cache) - {username} else old(cache)
    {
      if deleteFault.Some? {
        return deleteFault;
      }
      WithoutLoginRemovesExactly(rows, username);
      rows := WithoutLogin(rows, username);
      if hasCache && !cacheDeleteFails {
        cache := cache - {username};
      }
      r := None;
    }
  }

  /** With a cache, a user fetched under its own login is served from the cache
      on the next call: the upstream is asked once for two reads. */
  method GetTwiceAsksUpstreamOnce(service: UserService, username: string, g: GitHubUser)
    returns (first: Result<User, Error>, second: Result<User, Error>)
    requires service.Valid() && service.hasCache && username !in service.cache && g.login == username
    modifies service`cache, service`fetchCalls
    ensures first == Ok(FetchedUser(g)) && second == first
    ensures service.fetchCalls == old(service.fetchCalls) + [username]
  {
    first := service.Get(username, false, Ok(g), false);
    second := service.Get(username, false, Ok(g), false);
  }
}
