/**
 * The trending route (`GET /api/trending`): the `category` and `limit` query
 * parameters with their defaults, `mockProjects.slice(0, limit)` with
 * JavaScript's slice rules, and the rank and score given to each entry by its
 * index. Only the identifying fields of the three mock projects are kept;
 * their other contents and the clock-derived timestamps are not modelled.
 */
module Trending {
  import opened Wrappers
  import opened JsSemantics

  datatype MockProject = MockProject(id: string, tokenName: string, tokenSymbol: string, repoName: string)

  const MockProjects: seq<MockProject> := [
    MockProject("mock-1", "DeFi Token", "DEFI", "defi-protocol"),
    MockProject("mock-2", "AI Bot Token", "AIBOT", "ai-trader"),
    MockProject("mock-3", "Game Token", "GAME", "web3-game")
  ]

  /** A mock project spread into the response with its trending score and rank. */
  datatype RankedProject = RankedProject(project: MockProject, trendingScore: int, trendingRank: nat)

  datatype TrendingResponse = TrendingResponse(
    status: nat, error: Option<string>, category: string, projects: seq<RankedProject>, total: nat)

  /** The query string as (name, value) pairs in order, already percent-decoded. */
  type Query = seq<(string, string)>

  /** `searchParams.get(name)`: the value of the first pair with that name, or `null`. */
  function SearchParam(q: Query, name: string): (r: Option<string>)
    ensures r.None? <==> forall i :: 0 <= i < |q| ==> q[i].0 != name
    ensures r.Some? ==>
      exists i :: (0 <= i < |q| && q[i] == (name, r.value) && forall j :: 0 <= j < i ==> q[j].0 != name)
  {
    if q == [] then None
    else if q[0].0 == name then Some(q[0].1)
    else
      var r := SearchParam(q[1..], name);
      assert r.Some? ==>
        exists i :: (0 <= i < |q| && q[i] == (name, r.value) && forall j :: 0 <= j < i ==> q[j].0 != name) by {
        if r.Some? {
          var i :| 0 <= i < |q[1..]| && q[1..][i] == (name, r.value) &&
            forall j :: 0 <= j < i ==> q[1..][j].0 != name;
          assert q[i + 1] == (name, r.value);
          assert forall j :: 0 <= j < i + 1 ==> q[j].0 != name by {
            forall j | 0 <= j < i + 1 ensures q[j].0 != name {
              if j > 0 { assert q[j] == q[1..][j - 1]; }
            }
          }
        }
      }
      r
  }

  /** `searchParams.get(name) || fallback`: a missing or empty value gives the fallback. */
  function ParamOr(q: Query, name: string, fallback: string): (r: string)
    ensures SearchParam(q, name).Some? && SearchParam(q, name).value != "" ==> r == SearchParam(q, name).value
    ensures SearchParam(q, name).None? || SearchParam(q, name).value == "" ==> r == fallback
  {
    match SearchParam(q, name)
    case Some(v) => if v != "" then v else fallback
    case None => fallback
  }

  /** The entries of the response: entry `i` is `ps[i]` with score `100 - 10 * i` and rank `i + 1`. */
  function Rank(ps: seq<MockProject>): (r: seq<RankedProject>)
    ensures |r| == |ps|
    ensures forall i :: 0 <= i < |r| ==> r[i] == RankedProject(ps[i], 100 - 10 * i, i + 1)
  {
    seq(|ps|, i requires 0 <= i < |ps| => RankedProject(ps[i], 100 - 10 * i, i + 1))
  }

  /** Ranks count up from 1 and scores strictly decrease down the list. */
  lemma RankOrdered(ps: seq<MockProject>)
    ensures var r := Rank(ps);
      forall i, j :: 0 <= i < j < |r| ==> r[i].trendingRank < r[j].trendingRank && r[i].trendingScore > r[j].trendingScore
  {
  }

  /** The response when the request URL cannot be parsed (the catch branch). */
  const ErrorResponse: TrendingResponse := TrendingResponse(500, Some("Internal server error"), "hot", [], 0)

  /**
   * The route. `url` holds the parsed query, or `None` when the request URL
   * cannot be parsed and the handler falls into its catch branch.
   */
  function Get(url: Option<Query>): (r: TrendingResponse)
    ensures url.None? ==> r == ErrorResponse
    ensures url.Some? ==>
      var q := url.value;
      var limit := ParseInt(ParamOr(q, "limit", "10"));
      && r.status == 200 && r.error.None?
      && r.category == ParamOr(q, "category", "hot") && r.category != ""
      && r.total == |MockProjects|
      && (limit.None? ==> r.projects == [])
      && (limit.Some? && limit.value >= 0 ==>
            |r.projects| == (if limit.value < |MockProjects| then limit.value else |MockProjects|))
      && (limit.Some? && limit.value < 0 ==>
            |r.projects| == (if |MockProjects| + limit.value > 0 then |MockProjects| + limit.value else 0))
      && forall i :: 0 <= i < |r.projects| ==>
           r.projects[i] == RankedProject(MockProjects[i], 100 - 10 * i, i + 1)
  {
    match url
    case None => ErrorResponse
    case Some(q) =>
      var category := ParamOr(q, "category", "hot");
      var limit := ParseInt(ParamOr(q, "limit", "10"));
      TrendingResponse(200, None, category, Rank(Slice(MockProjects, 0, NaNToZero(limit))), |MockProjects|)
  }

  /** Without a `limit` parameter (or with an empty one) all three mock projects are returned. */
  lemma DefaultLimitReturnsAll(q: Query)
    requires SearchParam(q, "limit").None? || SearchParam(q, "limit").value == ""
    ensures Get(Some(q)).projects == Rank(MockProjects)
  {
    assert ParamOr(q, "limit", "10") == "10";
    assert NumberToString(10) == "10" by {
      assert NumberToString(1) == "1";
    }
    ParseIntOfNumber(10, "");
    assert "10" + "" == "10";
    assert ParseInt("10") == Some(10);
    assert Slice(MockProjects, 0, 10) == MockProjects;
  }
}
