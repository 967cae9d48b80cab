/** What the commit report keeps about a commit: the hits of the search service, the
    cached records made of them, and the statistics fetched later. */
module CommitCache {
  import opened Common

  datatype Contributor = Contributor(key: string, displayName: string, email: Option<string>, login: Option<string>)

  /** A commit as the search service holds it; second is its date in whole seconds, and
      contributors are those named by its author fields and its message. */
  datatype Item = Item(
    sha: string, second: int, authorEmail: Option<string>, authorLogin: Option<string>, authorName: Option<string>,
    date: Option<string>, htmlUrl: string, repositoryFullName: string, repositoryUrl: string, contributors: seq<Contributor>)

  datatype Commit = Commit(
    sha: string, repositoryFullName: string, repositoryUrl: string, htmlUrl: string,
    authorLogin: Option<string>, authorName: Option<string>, authorEmail: Option<string>,
    committedAt: Option<string>, contributors: seq<Contributor>)

  datatype Stats = Stats(additions: int, deletions: int, total: int)

  /** The cached record is that of this hit, field by field. */
  predicate IsRecordOf(c: Commit, x: Item) {
    && c.sha == x.sha && c.repositoryFullName == x.repositoryFullName && c.repositoryUrl == x.repositoryUrl
    && c.htmlUrl == x.htmlUrl && c.authorLogin == x.authorLogin && c.authorName == x.authorName
    && c.authorEmail == x.authorEmail && c.committedAt == x.date && c.contributors == x.contributors
  }

  function RecordOf(x: Item): (c: Commit)
    ensures IsRecordOf(c, x)
  {
    Commit(x.sha, x.repositoryFullName, x.repositoryUrl, x.htmlUrl, x.authorLogin, x.authorName, x.authorEmail, x.date, x.contributors)
  }
}
