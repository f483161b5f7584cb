/** The older user service the application started from. It shares the
    repository's behaviour and the partial patch with the current service but
    differs in three ways: listing takes no options, the user built from the
    upstream leaves the node id empty as well as the view type, and `Update`
    writes the cache without checking that there is one, so a service built
    without a cache panics there once the row is already written. */
module LegacyService {
  import opened Wrappers
  import opened Entities
  import opened DomainErrors
  import Services

  /** How a Go call ends: it returns, or it panics (a nil pointer dereference). */
  datatype Outcome<+T> = Returned(result: Result<T, Error>) | Panicked

  /** The user `Get` builds from an upstream entry: neither the node id nor the view type. */
  function LegacyFetchedUser(g: GitHubUser): (u: User)
    ensures u == CopyAll(g).(nodeId := "", userViewType := "")
  {
    User(g.login, g.id, "", g.avatarUrl, g.url, g.htmlUrl, g.userType, "", g.siteAdmin)
  }

  /** The legacy mapping is the current one with the node id dropped; the two
      agree exactly on the upstream entries that have no node id. */
  lemma LegacyMappingDropsNodeId(g: GitHubUser)
    ensures LegacyFetchedUser(g) == Services.FetchedUser(g).(nodeId := "")
    ensures LegacyFetchedUser(g) == Services.FetchedUser(g) <==> g.nodeId == ""
  {
    if g.nodeId != "" {
      assert LegacyFetchedUser(g).nodeId != Services.FetchedUser(g).nodeId;
    }
  }

  class UserService {
    /** The repository: stored users by id. */
    var rows: map<int, User>
    /** The cache: users by login (empty when the service has no cache). */
    var cache: map<string, User>
    /** Whether a cache was given to the service (a nil cache pointer otherwise). */
    const hasCache: bool
    /** The logins asked of the upstream, in order. */
    var fetchCalls: seq<string>

    ghost predicate Valid()
      reads this
    {
      Services.KeyedById(rows) && (!hasCache ==> cache == map[])
    }

    constructor (rows0: map<int, User>, hasCache: bool, cache0: map<string, User>)
      requires Services.KeyedById(rows0)
      ensures Valid()
      ensures this.hasCache == hasCache && rows == rows0
      ensures cache == (if hasCache then cache0 else map[])
      ensures fetchCalls == []
    {
      rows := rows0;
      this.hasCache := hasCache;
      cache := if hasCache then cache0 else map[];
      fetchCalls := [];
    }

    predicate CacheHit(username: string, cacheReadFails: bool)
      reads this
    {
      hasCache && !cacheReadFails && username in cache
    }

    /** `List`: the repository's whole list, or its error, as it is; no options
        and so no defaults. */
    method List(listed: Result<seq<User>, Error>) returns (r: Result<seq<User>, Error>)
      ensures r == listed
    {
      r := listed;
    }

    /** `Get`: a cache hit answers at once; otherwise the upstream is asked, its
        error returned with nothing cached, or its user mapped, cached when
        there is a cache and returned. */
    method Get(username: string, cacheReadFails: bool, fetched: Result<GitHubUser, Error>, cacheWriteFails: bool)
      returns (r: Result<User, Error>)
      requires Valid()
      modifies this`cache, this`fetchCalls
      ensures Valid()
      ensures old(CacheHit(username, cacheReadFails)) ==>
        r == Ok(old(cache)[username]) && cache == old(cache) && fetchCalls == old(fetchCalls)
      ensures !old(CacheHit(username, cacheReadFails)) ==> fetchCalls == old(fetchCalls) + [username]
      ensures !old(CacheHit(username, cacheReadFails)) && fetched.Err? ==>
        r == Err(fetched.error) && cache == old(cache)
      ensures !old(CacheHit(username, cacheReadFails)) && fetched.Ok? ==>
        r == Ok(LegacyFetchedUser(fetched.value)) &&
        cache == if hasCache && !cacheWriteFails then old(cache)[r.value.login := r.value] else old(cache)
    {
      if hasCache {
        if !cacheReadFails && username in cache {
          return Ok(cache[username]);
        }
      }
      fetchCalls := fetchCalls + [username];
      if fetched.Err? {
        return Err(fetched.error);
      }
      var g := fetched.value;
      var user := User(g.login, g.id, "", g.avatarUrl, g.url, g.htmlUrl, g.userType, "", g.siteAdmin);
      if hasCache && !cacheWriteFails {
        cache := cache[user.login := user];
      }
      r := Ok(user);
    }

    /** `Update`: as in the current service up to the write-back; the cache
        write that follows is not guarded, so without a cache the call panics
        after the row has been written. */
    method Update(username: string, update: UpdateUserRequest, readFault: Option<Error>,
                  writeFault: Option<Error>, cacheWriteFails: bool)
      returns (r: Outcome<User>, ghost found: Option<User>)
      requires Valid()
      modifies this`rows, this`cache
      ensures Valid()
      ensures readFault.Some? ==> found.None? && r == Returned(Err(readFault.value))
      ensures readFault.None? ==> (found.Some? <==> Services.HasLogin(old(rows), username))
      ensures found.Some? ==> found.value in old(rows).Values && found.value.login == username
      ensures found.None? ==> r.Returned? && r.result.Err? && rows == old(rows) && cache == old(cache)
      ensures found.Some? && writeFault.Some? ==>
        r == Returned(Err(writeFault.value)) && rows == old(rows) && cache == old(cache)
      ensures found.Some? && writeFault.None? ==>
        rows == old(rows)[found.value.id := Services.ApplyUpdate(found.value, update)]
      ensures found.Some? && writeFault.None? && hasCache ==>
        r == Returned(Ok(Services.ApplyUpdate(found.value, update))) &&
        cache == if cacheWriteFails then old(cache) else old(cache)[Services.ApplyUpdate(found.value, update).login := Services.ApplyUpdate(found.value, update)]
      ensures found.Some? && writeFault.None? && !hasCache ==> r == Panicked && cache == old(cache)
    {
      var existing := Services.GetByLogin(rows, username, readFault);
      if existing.Err? {
        return Returned(Err(existing.error)), None;
      }
      found := Some(existing.value);
      var existingUser := Services.PatchFields(existing.value, update);
      if writeFault.Some? {
        return Returned(Err(writeFault.value)), found;
      }
      Services.UpsertKeepsKeyedById(rows, existingUser);
      rows := rows[existingUser.id := existingUser];
      if !hasCache {
        return Panicked, found;
      }
      if !cacheWriteFails {
        cache := cache[existingUser.login := existingUser];
      }
      r := Returned(Ok(existingUser));
    }

    /** `Delete`: delete the rows with the login; only when that succeeds is the
        cache entry dropped, when there is a cache. */
    method Delete(username: string, deleteFault: Option<Error>, cacheDeleteFails: bool) returns (r: Option<Error>)
      requires Valid()
      modifies this`rows, this`cache
      ensures Valid()
      ensures deleteFault.Some? ==> r == deleteFault && rows == old(rows) && cache == old(cache)
      ensures deleteFault.None? ==> r.None? && rows == Services.WithoutLogin(old(rows), username)
      ensures deleteFault.None? ==>
        cache == if hasCache && !cacheDeleteFails then old(cache) - {username} else old(cache)
    {
      if deleteFault.Some? {
        return deleteFault;
      }
      Services.WithoutLoginRemovesExactly(rows, username);
      rows := Services.WithoutLogin(rows, username);
      if hasCache && !cacheDeleteFails {
        cache := cache - {username};
      }
      r := None;
    }
  }

  /** A legacy service built without a cache panics on every `Update` whose read
      and write succeed, after the stored row has already changed; the current
      service returns the patched user in the same situation. */
  method UpdateWithoutCachePanics(username: string, existing: User, update: UpdateUserRequest)
    returns (legacy: Outcome<User>, current: Result<User, Error>)
    requires existing.login == username
    ensures legacy == Panicked
    ensures current == Ok(Services.ApplyUpdate(existing, update))
  {
    var rows := map[existing.id := existing];
    assert rows[existing.id].login == username;
    var legacyService := new UserService(rows, false, map[]);
    ghost var g;
    legacy, g := legacyService.Update(username, update, None, None, false);
    var currentService := new Services.UserService(rows, false, map[]);
    ghost var found;
    current, found := currentService.Update(username, update, None, None, false);
  }
}
