/**
 * The repository-verification route (`POST /api/github/verify`): an ordered
 * chain of guards (401, then 400 three times, then 403), extraction of owner
 * and repository name from the submitted URL by the unanchored pattern
 * `github\.com\/([^/]+)\/([^/]+)`, and an update-or-insert of the `projects`
 * row keyed by (repository URL, user id).
 *
 * The session, the GitHub calls and the database are collaborators: the
 * current user and the provider token are inputs, the ownership check and the
 * metadata fetch are functions given as parameters, and the `projects` table
 * is an in-memory map of rows held by a `ProjectsTable` object.
 */
module GithubVerify {
  import opened Wrappers
  import opened JsSemantics

  // ---------------------------------------------------------------------
  // The URL pattern

  const Host: string := "github.com/"

  /** Position `k` ends a `[^/]+` segment: the text ends there or a slash follows. */
  predicate SegmentEnds(s: string, k: nat) {
    k == |s| || (k < |s| && s[k] == '/')
  }

  /** The longest run of non-slash characters starting at `k` (what greedy `[^/]+` takes). */
  function MaximalSegment(s: string, k: nat): (r: string)
    requires k <= |s|
    ensures k + |r| <= |s| && r == s[k..k + |r|]
    ensures '/' !in r
    ensures SegmentEnds(s, k + |r|)
    decreases |s| - k
  {
    if k < |s| && s[k] != '/' then [s[k]] + MaximalSegment(s, k + 1) else []
  }

  /** The pattern tried at position `i` only. */
  function MatchAt(s: string, i: nat): Option<(string, string)>
    requires i <= |s|
  {
    if i + |Host| <= |s| && s[i..i + |Host|] == Host then
      var owner := MaximalSegment(s, i + |Host|);
      var k := i + |Host| + |owner|;
      if owner != [] && k < |s| then
        var repo := MaximalSegment(s, k + 1);
        if repo != [] then Some((owner, repo)) else None
      else None
    else None
  }

  /** The leftmost match at position `i` or later. */
  function MatchFrom(s: string, i: nat): Option<(string, string)>
    requires i <= |s|
    decreases |s| - i
  {
    if MatchAt(s, i).Some? then MatchAt(s, i)
    else if i == |s| then None
    else MatchFrom(s, i + 1)
  }

  /** `repoUrl.match(/github\.com\/([^/]+)\/([^/]+)/)`, giving the two groups. */
  function MatchRepoUrl(s: string): Option<(string, string)> {
    MatchFrom(s, 0)
  }

  /** `github.com/` + `owner` + `/` + `repo` occurs at position `i`, with both segments non-empty and slash-free. */
  ghost predicate Occurs(s: string, i: nat, owner: string, repo: string) {
    var j := i + |Host|;
    var k := j + |owner|;
    && owner != [] && repo != [] && '/' !in owner && '/' !in repo
    && k + 1 + |repo| <= |s|
    && s[i..j] == Host && s[j..k] == owner && s[k] == '/' && s[k + 1..k + 1 + |repo|] == repo
  }

  /** No occurrence starts before position `n`. */
  ghost predicate NoOccurrenceBefore(s: string, n: nat) {
    forall i: nat, owner, repo :: i < n ==> !Occurs(s, i, owner, repo)
  }

  /** What the regular expression reports: the leftmost occurrence, with the repository segment extended to the next slash. */
  ghost predicate IsLeftmostMatch(s: string, i: nat, owner: string, repo: string) {
    && Occurs(s, i, owner, repo)
    && SegmentEnds(s, i + |Host| + |owner| + 1 + |repo|)
    && NoOccurrenceBefore(s, i)
  }

  lemma {:induction false} MaximalSegmentIs(s: string, k: nat, seg: string)
    requires k + |seg| <= |s| && s[k..k + |seg|] == seg && '/' !in seg
    requires SegmentEnds(s, k + |seg|)
    ensures MaximalSegment(s, k) == seg
    decreases |seg|
  {
    if seg != [] {
      assert s[k] == seg[0];
      assert s[k + 1..k + 1 + |seg[1..]|] == seg[1..];
      MaximalSegmentIs(s, k + 1, seg[1..]);
    }
  }

  lemma {:induction false} MaximalSegmentCovers(s: string, k: nat, seg: string)
    requires k + |seg| <= |s| && s[k..k + |seg|] == seg && '/' !in seg
    ensures |MaximalSegment(s, k)| >= |seg|
    decreases |seg|
  {
    if seg != [] {
      assert s[k] == seg[0];
      assert s[k + 1..k + 1 + |seg[1..]|] == seg[1..];
      MaximalSegmentCovers(s, k + 1, seg[1..]);
    }
  }

  /** A match found at `i` is an occurrence whose repository segment runs to the next slash, and conversely. */
  lemma MatchAtSpec(s: string, i: nat, owner: string, repo: string)
    requires i <= |s|
    ensures MatchAt(s, i) == Some((owner, repo)) <==>
      Occurs(s, i, owner, repo) && SegmentEnds(s, i + |Host| + |owner| + 1 + |repo|)
  {
    var j := i + |Host|;
    if Occurs(s, i, owner, repo) && SegmentEnds(s, j + |owner| + 1 + |repo|) {
      MaximalSegmentIs(s, j, owner);
      MaximalSegmentIs(s, j + |owner| + 1, repo);
    }
  }

  /** There is no match at `i` exactly when nothing occurs at `i`. */
  lemma MatchAtNone(s: string, i: nat)
    requires i <= |s|
    ensures MatchAt(s, i).None? <==> forall owner, repo :: !Occurs(s, i, owner, repo)
  {
    if MatchAt(s, i).Some? {
      var m := MatchAt(s, i).value;
      MatchAtSpec(s, i, m.0, m.1);
    } else {
      forall owner, repo ensures !Occurs(s, i, owner, repo) {
        if Occurs(s, i, owner, repo) {
          var j := i + |Host|;
          MaximalSegmentIs(s, j, owner);
          MaximalSegmentCovers(s, j + |owner| + 1, repo);
          assert false;
        }
      }
    }
  }

  lemma {:induction false} MatchFromSpec(s: string, i: nat)
    requires i <= |s|
    ensures MatchFrom(s, i).None? ==> forall k: nat :: i <= k <= |s| ==> MatchAt(s, k).None?
    ensures MatchFrom(s, i).Some? ==>
      exists k: nat :: (i <= k <= |s| && MatchAt(s, k) == MatchFrom(s, i) &&
        forall k': nat :: i <= k' < k ==> MatchAt(s, k').None?)
    decreases |s| - i
  {
    if MatchAt(s, i).None? && i < |s| {
      MatchFromSpec(s, i + 1);
      if MatchFrom(s, i).Some? {
        var k: nat :| i + 1 <= k <= |s| && MatchAt(s, k) == MatchFrom(s, i + 1) &&
          forall k': nat :: i + 1 <= k' < k ==> MatchAt(s, k').None?;
        assert forall k': nat :: i <= k' < k ==> MatchAt(s, k').None?;
      }
    }
  }

  /** An occurrence can only start at a position from which `Host` and two more characters fit. */
  lemma OccursInRange(s: string, i: nat, owner: string, repo: string)
    requires Occurs(s, i, owner, repo)
    ensures i <= |s|
  {
  }

  /**
   * The extraction is exactly the leftmost occurrence of `github.com/X/Y`: text
   * before it is ignored, and `Y` keeps everything up to the next slash or the
   * end (a `.git` or `?tab=x` suffix included).
   */
  lemma MatchRepoUrlSpec(s: string, owner: string, repo: string)
    ensures MatchRepoUrl(s) == Some((owner, repo)) <==> exists i: nat :: IsLeftmostMatch(s, i, owner, repo)
  {
    MatchFromSpec(s, 0);
    if MatchRepoUrl(s) == Some((owner, repo)) {
      var k: nat :| k <= |s| && MatchAt(s, k) == Some((owner, repo)) &&
        forall k': nat :: k' < k ==> MatchAt(s, k').None?;
      MatchAtSpec(s, k, owner, repo);
      forall i: nat, o, r | i < k ensures !Occurs(s, i, o, r) {
        MatchAtNone(s, i);
      }
      assert IsLeftmostMatch(s, k, owner, repo);
    }
    if i: nat :| IsLeftmostMatch(s, i, owner, repo) {
      OccursInRange(s, i, owner, repo);
      MatchAtSpec(s, i, owner, repo);
      forall k': nat | k' < i ensures MatchAt(s, k').None? {
        MatchAtNone(s, k');
      }
      assert MatchFrom(s, 0).Some?;
      var k: nat :| k <= |s| && MatchAt(s, k) == MatchFrom(s, 0) &&
        forall k': nat :: k' < k ==> MatchAt(s, k').None?;
      assert k == i;
    }
  }

  /** The extraction fails exactly when `github.com/X/Y` occurs nowhere. */
  lemma MatchRepoUrlNone(s: string)
    ensures MatchRepoUrl(s).None? <==> NoOccurrenceBefore(s, |s| + 1)
  {
    MatchFromSpec(s, 0);
    if MatchRepoUrl(s).None? {
      forall i: nat, o, r | i < |s| + 1 ensures !Occurs(s, i, o, r) {
        MatchAtNone(s, i);
      }
    } else {
      var m := MatchRepoUrl(s).value;
      MatchRepoUrlSpec(s, m.0, m.1);
    }
  }

  /** A match gives non-empty owner and repository names without slashes. */
  lemma MatchRepoUrlSegments(s: string)
    requires MatchRepoUrl(s).Some?
    ensures var m := MatchRepoUrl(s).value;
      m.0 != [] && m.1 != [] && '/' !in m.0 && '/' !in m.1
  {
    var m := MatchRepoUrl(s).value;
    MatchRepoUrlSpec(s, m.0, m.1);
  }

  /** The scheme before `github.com/` is ignored and the `.git` suffix stays in the repository name. */
  lemma ExampleGitSuffix()
    ensures MatchRepoUrl("https://github.com/acme/tool.git") == Some(("acme", "tool.git"))
  {
    var s := "https://github.com/acme/tool.git";
    assert s == "https://" + Host + "acme" + "/" + "tool.git";
    assert s[8..19] == Host;
    assert s[19..23] == "acme";
    assert s[24..32] == "tool.git";
    assert Occurs(s, 8, "acme", "tool.git");
    forall i: nat, o, r | i < 8 ensures !Occurs(s, i, o, r) {
      assert s[i..i + |Host|] != Host by {
        assert s[i..i + |Host|][0] == s[i] != 'g';
      }
    }
    assert IsLeftmostMatch(s, 8, "acme", "tool.git");
    MatchRepoUrlSpec(s, "acme", "tool.git");
  }

  // ---------------------------------------------------------------------
  // The guard chain

  datatype User = User(id: string)

  /** What the GitHub metadata fetch gives. */
  datatype RepoDetails = RepoDetails(
    name: string, description: JsValue, stargazersCount: nat, forksCount: nat, language: JsValue)

  /** Where the guards leave a request: rejected with a status, or cleared to write. */
  datatype Guarded =
    | Reject(status: nat, error: string)
    | Proceed(userId: string, repoUrl: string, owner: string, repo: string, token: string)

  const CatchAllError: string := "Failed to verify repository"

  /**
   * The checks of the route in order. `auth` is the signed-in user (`None` for
   * an auth error or no user); `body` is the `repoUrl` field of the JSON body
   * (`None` when the body cannot be read as JSON); `token` is the session's
   * provider token; `isOwner(owner, repo, token)` is the ownership check.
   */
  function Guard(auth: Option<User>, body: Option<JsValue>, token: JsValue,
                 isOwner: (string, string, string) -> Call<bool>): (g: Guarded)
    ensures auth.None? <==> g == Reject(401, "Unauthorized")
    ensures g == Reject(400, "Repository URL is required") <==> auth.Some? && body.Some? && !Truthy(body.value)
    ensures g == Reject(400, "Invalid GitHub repository URL") <==>
      auth.Some? && body.Some? && Truthy(body.value) && MatchRepoUrl(body.value.s).None?
    ensures g == Reject(400, "GitHub access token not found") <==>
      auth.Some? && body.Some? && Truthy(body.value) && MatchRepoUrl(body.value.s).Some? && !Truthy(token)
    ensures g == Reject(403, "You don't have permission to verify this repository") <==>
      && auth.Some? && body.Some? && Truthy(body.value) && MatchRepoUrl(body.value.s).Some? && Truthy(token)
      && isOwner(MatchRepoUrl(body.value.s).value.0, MatchRepoUrl(body.value.s).value.1, token.s) == Returned(false)
    // an unreadable body and a throwing ownership check both land in the catch-all 500
    ensures auth.Some? && body.None? ==> g == Reject(500, CatchAllError)
    ensures auth.Some? && body.Some? && Truthy(body.value) && MatchRepoUrl(body.value.s).Some? && Truthy(token)
      && isOwner(MatchRepoUrl(body.value.s).value.0, MatchRepoUrl(body.value.s).value.1, token.s) == Threw
      ==> g == Reject(500, CatchAllError)
    ensures g.Reject? ==> g.status in {400, 401, 403, 500}
    ensures g.Proceed? <==>
      && auth.Some? && body.Some? && Truthy(body.value) && MatchRepoUrl(body.value.s).Some? && Truthy(token)
      && isOwner(MatchRepoUrl(body.value.s).value.0, MatchRepoUrl(body.value.s).value.1, token.s) == Returned(true)
    ensures g.Proceed? ==>
      && g.userId == auth.value.id && g.repoUrl == body.value.s && g.token == token.s
      && (g.owner, g.repo) == MatchRepoUrl(g.repoUrl).value
  {
    if auth.None? then Reject(401, "Unauthorized")
    else if body.None? then Reject(500, CatchAllError)
    else if !Truthy(body.value) then Reject(400, "Repository URL is required")
    else
      var url := body.value.s;
      match MatchRepoUrl(url)
      case None => Reject(400, "Invalid GitHub repository URL")
      case Some((owner, repo)) =>
        if !Truthy(token) then Reject(400, "GitHub access token not found")
        else
          match isOwner(owner, repo, token.s)
          case Threw => Reject(500, CatchAllError)
          case Returned(false) => Reject(403, "You don't have permission to verify this repository")
          case Returned(true) => Proceed(auth.value.id, url, owner, repo, token.s)
  }

  /** The 401 answer does not depend on the body, the token or the ownership check. */
  lemma UnauthorizedFirst(body: Option<JsValue>, body': Option<JsValue>, token: JsValue, token': JsValue,
                          isOwner: (string, string, string) -> Call<bool>, isOwner': (string, string, string) -> Call<bool>)
    ensures Guard(None, body, token, isOwner) == Guard(None, body', token', isOwner')
  {
  }

  // ---------------------------------------------------------------------
  // The projects table

  datatype ProjectRow = ProjectRow(
    id: nat, userId: string, githubRepoUrl: string,
    repoName: string, repoDescription: JsValue, repoStars: nat, repoForks: nat, repoLanguage: JsValue,
    repoVerified: bool, createdAt: string, updatedAt: string,
    /** the columns the route never writes (token fields and the like), by name */
    otherColumns: map<string, JsValue>)

  predicate KeyMatches(row: ProjectRow, url: string, userId: string) {
    row.githubRepoUrl == url && row.userId == userId
  }

  ghost predicate HasKey(rows: map<nat, ProjectRow>, url: string, userId: string) {
    exists id :: id in rows && KeyMatches(rows[id], url, userId)
  }

  /** Row ids are the map keys and below the next id to hand out, and no two rows share a key. */
  ghost predicate TableInvariant(rows: map<nat, ProjectRow>, nextId: nat) {
    && (forall id :: id in rows ==> rows[id].id == id && id < nextId)
    && (forall a, b :: a in rows && b in rows && KeyMatches(rows[a], rows[b].githubRepoUrl, rows[b].userId) ==> a == b)
  }

  /** The `.update({...})` of the route: the repository columns, `repo_verified` and `updated_at`. */
  function WithDetails(row: ProjectRow, d: RepoDetails, now: string): (r: ProjectRow)
    ensures r.id == row.id && r.userId == row.userId && r.githubRepoUrl == row.githubRepoUrl
    ensures r.createdAt == row.createdAt && r.otherColumns == row.otherColumns
    ensures r.repoVerified && r.updatedAt == now
    ensures CarriesDetails(r, d, now)
  {
    row.(repoName := d.name, repoDescription := d.description, repoStars := d.stargazersCount,
         repoForks := d.forksCount, repoLanguage := d.language, repoVerified := true, updatedAt := now)
  }

  /** The `.insert({...})` of the route. */
  function NewRow(id: nat, url: string, userId: string, d: RepoDetails, now: string): (r: ProjectRow)
    ensures r.id == id && KeyMatches(r, url, userId) && r.repoVerified
  {
    ProjectRow(id, userId, url, d.name, d.description, d.stargazersCount, d.forksCount, d.language,
               true, now, now, map[])
  }

  /** The row the route ends up with for a key: the repository details of `d`, verified. */
  ghost predicate CarriesDetails(row: ProjectRow, d: RepoDetails, now: string) {
    && row.repoName == d.name && row.repoDescription == d.description
    && row.repoStars == d.stargazersCount && row.repoForks == d.forksCount
    && row.repoLanguage == d.language && row.repoVerified && row.updatedAt == now
  }

  /** The state after the update-or-insert: the new rows, the next id, and the id of the written row. */
  datatype Upserted = Upserted(rows: map<nat, ProjectRow>, nextId: nat, id: nat)

  ghost function Upsert(rows: map<nat, ProjectRow>, nextId: nat, url: string, userId: string,
                        d: RepoDetails, now: string): Upserted
  {
    if HasKey(rows, url, userId) then
      var id :| id in rows && KeyMatches(rows[id], url, userId);
      Upserted(rows[id := WithDetails(rows[id], d, now)], nextId, id)
    else
      Upserted(rows[nextId := NewRow(nextId, url, userId, d, now)], nextId + 1, nextId)
  }

  /**
   * After the update-or-insert exactly one row has the key and it is verified
   * with the new details; an existing row keeps its id and creation time, and
   * otherwise one new row with a fresh id is added; every other row is untouched.
   */
  lemma UpsertSpec(rows: map<nat, ProjectRow>, nextId: nat, url: string, userId: string, d: RepoDetails, now: string)
    requires TableInvariant(rows, nextId)
    ensures var u := Upsert(rows, nextId, url, userId, d, now);
      && TableInvariant(u.rows, u.nextId)
      && u.id in u.rows && KeyMatches(u.rows[u.id], url, userId) && CarriesDetails(u.rows[u.id], d, now)
      && (forall id :: id in u.rows && KeyMatches(u.rows[id], url, userId) ==> id == u.id)
      && (HasKey(rows, url, userId) ==>
            u.id in rows && KeyMatches(rows[u.id], url, userId) && u.rows.Keys == rows.Keys &&
            u.rows[u.id].createdAt == rows[u.id].createdAt && u.rows[u.id].otherColumns == rows[u.id].otherColumns)
      && (!HasKey(rows, url, userId) ==> u.id !in rows && u.rows.Keys == rows.Keys + {u.id})
      && (forall id :: id in rows && id != u.id ==> id in u.rows && u.rows[id] == rows[id])
  {
  }

  /** Verifying the same repository twice with the same details leaves the table as verifying it once. */
  lemma UpsertIdempotent(rows: map<nat, ProjectRow>, nextId: nat, url: string, userId: string, d: RepoDetails, now: string)
    requires TableInvariant(rows, nextId)
    ensures var u := Upsert(rows, nextId, url, userId, d, now);
      var v := Upsert(u.rows, u.nextId, url, userId, d, now);
      v == u
  {
    var u := Upsert(rows, nextId, url, userId, d, now);
    UpsertSpec(rows, nextId, url, userId, d, now);
    assert HasKey(u.rows, url, userId);
    var v := Upsert(u.rows, u.nextId, url, userId, d, now);
    assert v.id == u.id;
    assert u.rows[u.id] == WithDetails(u.rows[u.id], d, now);
    assert v.rows == u.rows;
  }

  /** The `projects` table, held as a map from row id to row. */
  class ProjectsTable {
    var rows: map<nat, ProjectRow>
    var nextId: nat

    ghost predicate Valid()
      reads this
    {
      TableInvariant(rows, nextId)
    }

    constructor ()
      ensures Valid() && rows == map[]
    {
      rows, nextId := map[], 0;
    }

    /**
     * `.select("id").eq("github_repo_url", url).eq("user_id", userId).single()`:
     * data only for exactly one match. The route keeps only `data` and ignores
     * `error`, so a failed select (`selectOk` false) reads like no match at all.
     */
    method SelectSingle(url: string, userId: string, selectOk: bool) returns (found: Option<nat>)
      requires Valid()
      ensures found.Some? <==> selectOk && HasKey(rows, url, userId)
      ensures found.Some? ==> found.value in rows && KeyMatches(rows[found.value], url, userId)
    {
      var matches := set id | id in rows && KeyMatches(rows[id], url, userId);
      assert HasKey(rows, url, userId) ==> |matches| == 1 by {
        if HasKey(rows, url, userId) {
          var id :| id in rows && KeyMatches(rows[id], url, userId);
          assert matches == {id};
        }
      }
      if selectOk && |matches| == 1 {
        var id :| id in matches;
        found := Some(id);
      } else {
        found := None;
      }
    }

    /** `.update({...}).eq("id", id)`. */
    method UpdateRow(id: nat, d: RepoDetails, now: string)
      requires Valid() && id in rows
      modifies this
      ensures Valid()
      ensures rows == old(rows)[id := WithDetails(old(rows)[id], d, now)] && nextId == old(nextId)
    {
      rows := rows[id := WithDetails(rows[id], d, now)];
    }

    /**
     * `.insert({...})`: a new row under a fresh id. A row that already has the
     * (URL, user) key makes the unique constraint refuse the insert, which the
     * route reports like any other insert error.
     */
    method InsertRow(url: string, userId: string, d: RepoDetails, now: string) returns (id: Option<nat>)
      requires Valid()
      modifies this
      ensures Valid()
      ensures HasKey(old(rows), url, userId) <==> id.None?
      ensures id.None? ==> unchanged(this)
      ensures id.Some? ==> id.value == old(nextId) && id.value !in old(rows)
      ensures id.Some? ==> rows == old(rows)[id.value := NewRow(id.value, url, userId, d, now)] && nextId == old(nextId) + 1
    {
      var clash := set k | k in rows && KeyMatches(rows[k], url, userId);
      assert HasKey(rows, url, userId) <==> clash != {} by {
        if HasKey(rows, url, userId) {
          var k :| k in rows && KeyMatches(rows[k], url, userId);
          assert k in clash;
        }
      }
      if clash != {} {
        return None;
      }
      id := Some(nextId);
      rows := rows[nextId := NewRow(nextId, url, userId, d, now)];
      nextId := nextId + 1;
    }
  }

  // ---------------------------------------------------------------------
  // The route

  datatype RepoSummary = RepoSummary(name: string, description: JsValue, stars: nat, forks: nat, language: JsValue)

  datatype VerifyResponse =
    | ErrorResponse(status: nat, error: string)
    | Verified(project: ProjectRow, repoDetails: RepoSummary)

  /** The `repoDetails` object of the success body. */
  function Summary(d: RepoDetails): (s: RepoSummary)
    ensures s.stars == d.stargazersCount && s.forks == d.forksCount
    ensures s.name == d.name && s.description == d.description && s.language == d.language
  {
    RepoSummary(d.name, d.description, d.stargazersCount, d.forksCount, d.language)
  }

  /**
   * The whole route. `fetchDetails(owner, repo, token)` is the metadata fetch,
   * `selectOk` says whether the lookup of an existing row succeeds, and
   * `writeOk` whether the database accepts the update or insert.
   */
  method Post(table: ProjectsTable, auth: Option<User>, body: Option<JsValue>, token: JsValue,
              isOwner: (string, string, string) -> Call<bool>,
              fetchDetails: (string, string, string) -> Call<RepoDetails>,
              selectOk: bool, writeOk: bool, now: string)
    returns (resp: VerifyResponse)
    requires table.Valid()
    modifies table
    ensures table.Valid()
    ensures var g := Guard(auth, body, token, isOwner);
      g.Reject? ==> resp == ErrorResponse(g.status, g.error) && unchanged(table)
    ensures var g := Guard(auth, body, token, isOwner);
      g.Proceed? && fetchDetails(g.owner, g.repo, g.token).Threw? ==>
        resp == ErrorResponse(500, CatchAllError) && unchanged(table)
    ensures var g := Guard(auth, body, token, isOwner);
      g.Proceed? && fetchDetails(g.owner, g.repo, g.token).Returned? && !writeOk ==>
        && resp == ErrorResponse(500, if selectOk && HasKey(old(table.rows), g.repoUrl, g.userId)
                                      then "Failed to update repository information"
                                      else "Failed to save repository information")
        && unchanged(table)
    // a failed lookup of an existing row sends the route to the insert, which the key's row refuses
    ensures var g := Guard(auth, body, token, isOwner);
      g.Proceed? && fetchDetails(g.owner, g.repo, g.token).Returned? && writeOk &&
      !selectOk && HasKey(old(table.rows), g.repoUrl, g.userId) ==>
        resp == ErrorResponse(500, "Failed to save repository information") && unchanged(table)
    ensures var g := Guard(auth, body, token, isOwner);
      g.Proceed? && fetchDetails(g.owner, g.repo, g.token).Returned? && writeOk &&
      (selectOk || !HasKey(old(table.rows), g.repoUrl, g.userId)) ==>
        var d := fetchDetails(g.owner, g.repo, g.token).value;
        var u := Upsert(old(table.rows), old(table.nextId), g.repoUrl, g.userId, d, now);
        table.rows == u.rows && table.nextId == u.nextId && resp == Verified(u.rows[u.id], Summary(d))
  {
    var g := Guard(auth, body, token, isOwner);
    if g.Reject? {
      return ErrorResponse(g.status, g.error);
    }
    var details := fetchDetails(g.owner, g.repo, g.token);
    if details.Threw? {
      return ErrorResponse(500, CatchAllError);
    }
    var d := details.value;
    UpsertSpec(table.rows, table.nextId, g.repoUrl, g.userId, d, now);
    var existing := table.SelectSingle(g.repoUrl, g.userId, selectOk);
    if existing.Some? {
      if !writeOk {
        return ErrorResponse(500, "Failed to update repository information");
      }
      table.UpdateRow(existing.value, d, now);
      resp := Verified(table.rows[existing.value], Summary(d));
    } else {
      if !writeOk {
        return ErrorResponse(500, "Failed to save repository information");
      }
      var id := table.InsertRow(g.repoUrl, g.userId, d, now);
      if id.None? {
        return ErrorResponse(500, "Failed to save repository information");
      }
      resp := Verified(table.rows[id.value], Summary(d));
    }
  }
}
