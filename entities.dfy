/** The records the core passes around: the upstream directory entry, the
    locally stored user, and the option and patch records of the service API. */
module Entities {

  /** A directory entry as the upstream returns it; only the fields the core reads. */
  datatype GitHubUser = GitHubUser(
    login: string,
    id: int,
    nodeId: string,
    avatarUrl: string,
    url: string,
    htmlUrl: string,
    userType: string,
    userViewType: string,
    siteAdmin: bool)

  /** A stored user (the `github_users` row); the timestamps the database
      maintains are not part of the model. */
  datatype User = User(
    login: string,
    id: int,
    nodeId: string,
    avatarUrl: string,
    url: string,
    htmlUrl: string,
    userType: string,
    userViewType: string,
    siteAdmin: bool)

  /** Paging and ordering options of a list request. */
  datatype ListOptions = ListOptions(limit: int, page: int, orderBy: string, orderDirection: string)

  /** A partial update: an empty string means "keep the stored value". */
  datatype UpdateUserRequest = UpdateUserRequest(
    login: string,
    nodeId: string,
    avatarUrl: string,
    url: string,
    htmlUrl: string,
    userType: string,
    userViewType: string,
    siteAdmin: bool)

  /** Reference mapping that copies every field of an upstream entry; each
      mapping of the core is stated as this copy with some fields blanked. */
  function CopyAll(g: GitHubUser): User {
    User(g.login, g.id, g.nodeId, g.avatarUrl, g.url, g.htmlUrl, g.userType, g.userViewType, g.siteAdmin)
  }
}
