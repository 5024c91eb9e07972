# A verified model of the decision logic of the GitHub-to-token launch app

The application lets a signed-in user verify ownership of a GitHub repository,
launch a token for it on a third-party platform, browse launches, and see the
SOL balance of the connected wallet. Most of it is React pages and HTTP glue.
This project models the small routines inside that glue that make decisions,
and proves what they promise.

- **`SolBalance`** (`sol_balance.dfy`) covers the balance card. `Short` renders a public key. A
  `SolBalanceCard` class holds the `loading`, `sol` and `err` state, and its
  `FetchBalance` method mirrors `fetchBalance`. That method tries the primary connection,
  then the four fallback endpoints in order, and stops at the first success.
  Each attempt's result (`Success(lamports)` or `Failure(message)`) is an input,
  indexed by attempt number. Results are not keyed by URL: the primary
  endpoint is the same URL as the first fallback. The method is proved against
  the recursive specification `FailOver`, and lemmas characterise
  `FailOver`. A ghost trace records the state at every `await`, so the model can
  state that `loading` is true while attempts run.
- **`GithubVerify`** (`github_verify.dfy`) covers the repository-verification route:
  - The regular expression `github\.com\/([^/]+)\/([^/]+)` is a scanning parser (`MatchRepoUrl`). It is
    proved equal to "the leftmost occurrence, with the repository segment
    running to the next slash".
  - The ordered guard chain is `Guard`.
  - The `projects` table is a `ProjectsTable` object holding a map of rows. Its
    update-or-insert is proved against the specification function `Upsert`.
  - The whole handler is `Post`.
- **`Trending`** (`trending.dfy`) covers the trending route. It models query-parameter defaulting
  over the ordered query pairs and JavaScript `parseInt` and `slice`. Entry `i`
  gets rank `i + 1` and score `100 - 10i`. The URL-parse failure gives the
  500 answer.
- **`Gitscreener`** (`gitscreener.dfy`) covers the launches page. It models the per-row `||`
  fallbacks that build each card's props, and the error, empty and card-grid
  branches.
- **`PumpFunCreate`** (`pump_fun_create.dfy`) covers the token-creation route. It models the auth and
  required-field checks, and the mock seed `name-symbol-timestamp` passed
  through `padEnd(32, "0").slice(0, 32)`. The key library accepts that seed
  only when its UTF-8 form fits 32 bytes. The answer reports `success: true`
  even when building the transaction fails.
- **`JsSemantics`** and **`Wrappers`** (`js_semantics.dfy`) hold the JavaScript semantics used above:
  truthiness, `||`, template-literal text, `slice`, `padEnd`, `parseInt`
  without a radix, decimal rendering, and UTF-8 length.

The collaborators are inputs. These are the user and the session token, the
GitHub ownership check and metadata fetch (function parameters), the database
query results, `Date.now()`, the random values, and the transaction build.

Three facts about the balance card's refresh shape its model:
- The endpoint list is fixed at five entries, so an empty list cannot occur.
- A `new PublicKey(...)` failure happens inside each attempt's `try`, so every
  endpoint is still tried.
- No attempt has a timeout.

## Model

| member | source | states |
|---|---|---|
| `SolBalance.Short` | components/sol-balance-card.tsx:7-9 | the first four characters, an ellipsis and the last four, 9 characters in all, for every key of at least 4 characters; `pk…pk` for keys of at most 4 |
| `SolBalance.EndpointsNotDistinct` | components/sol-balance-card.tsx:21-26 | five endpoints per refresh, and the first fallback is the primary URL again |
| `SolBalance.FailOver` | components/sol-balance-card.tsx:37-57 | a refresh makes between 1 and 5 calls |
| `SolBalance.FailOverFirstSuccess` | components/sol-balance-card.tsx:45-51 | the first successful attempt `k` ends the refresh with its balance after exactly `k + 1` calls |
| `SolBalance.FailOverAllFail` | components/sol-balance-card.tsx:52-55 | when every attempt fails, all are made and the kept error is the last one's, not the first |
| `SolBalance.FailOverSucceedsIff` | components/sol-balance-card.tsx:59-65 | the refresh yields a balance exactly when some attempt succeeds |
| `SolBalance.FailOverIgnoresUntried` | components/sol-balance-card.tsx:45-51 | results of attempts after the deciding one never influence the outcome |
| `SolBalance.FirstSuccessIndex` | components/sol-balance-card.tsx:45-51 | the index of the first success, with every earlier attempt failed |
| `SolBalance.SolBalanceCard.constructor` | components/sol-balance-card.tsx:14-16 | initial state: not loading, no balance, no error |
| `SolBalance.SolBalanceCard.FetchBalance` | components/sol-balance-card.tsx:18-73 | disconnected or no key: nothing tried, state unchanged; otherwise the endpoints called are the first `n` of the list, the state at each call is loading with the error cleared and the old balance, and the final state is not loading with the balance and no error on success, or no balance and the last error on failure |
| `GithubVerify.MaximalSegment` | app/api/github/verify/route.ts:24 | greedy `[^/]+`: slash-free and followed by a slash or the end |
| `GithubVerify.MatchAtSpec` | app/api/github/verify/route.ts:24 | a match at one position is an occurrence of `github.com/X/Y` with `Y` running to the next slash, and conversely |
| `GithubVerify.MatchAtNone` | app/api/github/verify/route.ts:24 | no match at a position exactly when no `github.com/X/Y` occurs there |
| `GithubVerify.MatchFromSpec` | app/api/github/verify/route.ts:24 | scanning returns the first position with a match, or nothing when no position matches |
| `GithubVerify.MatchRepoUrlSpec` | app/api/github/verify/route.ts:24-29 | for `MatchRepoUrl`, the scanning model of the regular expression: the extracted pair is exactly the leftmost occurrence, unanchored, with the repository segment extended to the next slash |
| `GithubVerify.MatchRepoUrlNone` | app/api/github/verify/route.ts:24-27 | extraction fails exactly when `github.com/X/Y` occurs nowhere |
| `GithubVerify.MatchRepoUrlSegments` | app/api/github/verify/route.ts:29 | owner and repository are non-empty and slash-free |
| `GithubVerify.ExampleGitSuffix` | app/api/github/verify/route.ts:24 | `https://github.com/acme/tool.git` gives `acme` and `tool.git` |
| `GithubVerify.Guard` | app/api/github/verify/route.ts:13-45 | 401 exactly when unauthenticated; 400 for a missing URL, an unmatched URL, then a missing token, each exactly when the earlier checks passed; 403 with the permission message exactly when all checks pass and the ownership check returns false; 500 with the catch-all message for an unreadable body or a throwing ownership check; proceeding exactly when the ownership check returns true, with the extracted owner and repository |
| `GithubVerify.UnauthorizedFirst` | app/api/github/verify/route.ts:13-17 | the 401 answer does not depend on the body, the token or the ownership check |
| `GithubVerify.WithDetails` | app/api/github/verify/route.ts:60-71 | the update writes name, description, stars, forks and language from the fetched details, sets verified and the update time, and keeps id, owner, URL, creation time and other columns |
| `GithubVerify.NewRow` | app/api/github/verify/route.ts:82-97 | the inserted row has the given id and key and is verified |
| `GithubVerify.UpsertSpec` | app/api/github/verify/route.ts:50-104 | for `Upsert`, the update-or-insert: afterwards exactly one row has the key, verified with the new details; an existing row keeps its id and creation time, otherwise one row with a fresh id is added; all other rows and the table invariant are preserved |
| `GithubVerify.UpsertIdempotent` | app/api/github/verify/route.ts:50-104 | verifying the same repository twice with the same details leaves the table as verifying it once |
| `GithubVerify.ProjectsTable.SelectSingle` | app/api/github/verify/route.ts:50-55 | finds a row exactly when the select succeeds and a row with the (URL, user) key exists, and that row has the key; a failed select reads as no row, since its `error` is ignored |
| `GithubVerify.ProjectsTable.UpdateRow` | app/api/github/verify/route.ts:60-73 | only the row with that id changes, as `WithDetails` says |
| `GithubVerify.ProjectsTable.InsertRow` | app/api/github/verify/route.ts:82-97 | refused, with nothing changed, exactly when a row already has the key; otherwise adds one row under a fresh id and nothing else changes |
| `GithubVerify.Summary` | app/api/github/verify/route.ts:111-117 | `stargazers_count` becomes `stars`, `forks_count` becomes `forks`; name, description and language are copied |
| `GithubVerify.Post` | app/api/github/verify/route.ts:5-123 | a rejected guard gives its status and leaves the table untouched; a failing fetch or write gives 500 with the route's message and no change; a failed lookup of an existing row leads to the insert branch and 500 "Failed to save repository information"; otherwise the table is the `Upsert` result and the answer carries the written row and the summary |
| `JsSemantics.Slice` | app/api/trending/route.ts:82 | JavaScript slice: negative arguments count from the end, arguments are clamped, and the elements are those at the clamped range |
| `JsSemantics.PadEnd` | app/api/pump-fun/create/route.ts:32 | the padded text keeps the original as a prefix and fills to the length with the fill character |
| `JsSemantics.Or` | app/gitscreener/page.tsx:57-65 | JavaScript `a \|\| b`: the left operand when truthy, otherwise the right, so the result is truthy exactly when either is |
| `JsSemantics.ParseIntOfNumber` | app/api/trending/route.ts:9 | `ParseInt`, the model of `Number.parseInt` without a radix, reads back a decimal number and stops at the first following non-digit |
| `JsSemantics.ParseIntOfNegative` | app/api/trending/route.ts:9 | a leading minus sign negates the value `parseInt` reads |
| `JsSemantics.Utf8LengthBounds` | app/api/pump-fun/create/route.ts:32 | the UTF-8 form is at least as long as the text, and equally long exactly when the text is ASCII |
| `Trending.SearchParam` | app/api/trending/route.ts:8-9 | `get` gives the value of the first pair with the name, or nothing exactly when no pair has it |
| `Trending.ParamOr` | app/api/trending/route.ts:8-9 | a missing or empty parameter gives the default |
| `Trending.Rank` | app/api/trending/route.ts:82-86 | entry `i` is the `i`-th project with score `100 - 10i` and rank `i + 1` |
| `Trending.RankOrdered` | app/api/trending/route.ts:84-85 | ranks increase and scores strictly decrease down the list |
| `Trending.Get` | app/api/trending/route.ts:3-118 | category defaults to `hot`; for `limit >= 0` the first `min(limit, 3)` mocks in order, for negative `k` all but the last `-k`, none for NaN; every entry keeps its mock's fields; `total` is always 3; a URL failure gives 500 with `hot`, no projects and total 0 |
| `Trending.DefaultLimitReturnsAll` | app/api/trending/route.ts:9 | without a `limit` (or with an empty one) all three mocks are returned |
| `Gitscreener.TextOr` | app/gitscreener/page.tsx:59 | `a \|\| b \|\| ""` gives the first truthy text, otherwise the empty string |
| `Gitscreener.Normalize` | app/gitscreener/page.tsx:55-66 | name falls back to title then `Unnamed Token` and is never empty; symbol, mint and dev wallet fall back to ticker, `ca` and wallet, then `""`; the pump.fun link exists exactly when `pump_url` or the raw `mint` is set, and is built from the raw mint; the key is mint-or-id, a dash and `created_at` |
| `Gitscreener.CaOnlyGetsNoLink` | app/gitscreener/page.tsx:62-65 | a row with only `ca` shows that address but gets no link |
| `Gitscreener.Content` | app/gitscreener/page.tsx:12-80 | a query error gives the failure text; null or empty data gives the empty branch; a throw gives the unavailable branch; otherwise one card per row in row order |
| `PumpFunCreate.StatusOf` | app/api/pump-fun/create/route.ts:14-91 | status 200 exactly for a created answer |
| `PumpFunCreate.MockSeed` | app/api/pump-fun/create/route.ts:31 | the seed is the name, a dash, the symbol, a dash, and exactly the decimal digits of the timestamp, which `parseInt` reads back |
| `PumpFunCreate.Seed32` | app/api/pump-fun/create/route.ts:32 | exactly 32 characters; a shorter seed is a prefix followed by `0`s, a longer seed is cut to its first 32 |
| `PumpFunCreate.MintAcceptedIffAscii` | app/api/pump-fun/create/route.ts:32 | the key library accepts the mint seed exactly when all 32 characters are ASCII |
| `PumpFunCreate.AsciiNamesGiveAcceptedMint` | app/api/pump-fun/create/route.ts:31-32 | an ASCII name and symbol always give an accepted mint seed |
| `PumpFunCreate.MemoText` | app/api/pump-fun/create/route.ts:52 | the memo is `Token: `, the symbol, ` created for ` and the name, in that order |
| `PumpFunCreate.MockTokenData` | app/api/pump-fun/create/route.ts:34-40 | the token data carries the mint seed and the IPFS URI built from the random tag |
| `PumpFunCreate.AnswerWith` | app/api/pump-fun/create/route.ts:67-80 | success either way with the same token data; the transaction when it was built, otherwise none plus the skipped note |
| `PumpFunCreate.Create` | app/api/pump-fun/create/route.ts:5-93 | as intended (the random keys are inputs; see Findings): 401 exactly when signed out; 400 exactly when a required field is missing or empty; 500 for an unreadable body or a mint over 32 bytes; otherwise a created answer with the mock token data and the build's outcome |
| `PumpFunCreate.CreateSucceeds` | app/api/pump-fun/create/route.ts:23-80 | as intended (the random keys are inputs; see Findings): a complete request with an ASCII name and symbol always answers 200, whatever the transaction build does |
| `PumpFunCreate.OptionalFieldsIgnored` | app/api/pump-fun/create/route.ts:19-26 | image and website never change the answer |
| `PumpFunCreate.RandomNumberTextIsNotBase58` | app/api/pump-fun/create/route.ts:36-38 | the text of a `Math.random()` value always has a character outside the base58 alphabet |
| `PumpFunCreate.CreateAsWritten` | app/api/pump-fun/create/route.ts:5-93 | if any random text is not base58, no created answer is possible |
| `PumpFunCreate.AsWrittenNeverCreates` | app/api/pump-fun/create/route.ts:36-38 | run as written, every request that passes validation ends in the 500 catch |

## Left out

- Network, RPC and HTTP calls (`getBalance`, `getLatestBlockhash`, `fetch`, the GitHub helpers): their results are inputs. lib/github is not part of this model.
- Supabase auth, sessions and query builders are inputs. The `project_launches` query's ordering and `.limit(50)` belong to the database, so its rows arrive as given.
- Floating point: the lamports-to-SOL division and `toFixed(4)`. Balances stay in lamports.
- Clocks and randomness (`Date.now`, `Math.random`, `toISOString`) are parameters. One `now` stands for both timestamps written on insert, although the route reads the clock twice.
- `console.log`/`console.error` output, response headers, and React rendering and hooks.
- Overlapping refresh clicks on the balance card, which are a concurrency concern.
- app/page.tsx, components/explore-card.tsx, components/explore-skeleton.tsx, components/wallet-provider.tsx and lib/pump-fun.ts are presentation or thin wrappers, not part of this model.
- Contents of the trending mock records beyond an id and names, and their timestamps.
- `parseInt` results beyond 2^53 lose precision in JavaScript. `slice` clamps them the same way, so the model keeps exact integers. `-0` is treated as 0.
- JSON values that are neither strings, `null` nor absent are not modelled. These are numbers or booleans in a body field or a launch-row column. A non-string `repoUrl` would make `.match` throw into the 500 branch.
- String lengths count Unicode scalar values, not UTF-16 code units. For characters outside the Basic Multilingual Plane, `padEnd` and `slice` in JavaScript count two units.
- SolBalance.SolBalanceCard.FetchBalance: the `|| new Error("All RPC endpoints failed")` fallback is modelled but can never be taken, because every failure carries its message. A thrown falsy value would be needed to take it.
- SolBalance.SolBalanceCard.FetchBalance: the base58 rendering of the key and the validity of the `PublicKey` construction are not modelled. A construction failure counts as a failed attempt.
- PumpFunCreate.Create: the mint is kept as its 32-character seed, not its base58 text. The key library's dropping of leading zero bytes (a seed starting with NUL characters) is not modelled.
- PumpFunCreate.Create: the `new PublicKey(creator)`, blockhash fetch and serialisation steps are folded into the `buildTx` outcome. The library's error texts in the 500 `details` field are named by cause only.
- PumpFunCreate.CreateAsWritten: only the base58 alphabet of a key text is checked, not the length it decodes to.
- GithubVerify.ProjectsTable.SelectSingle: with the key-uniqueness invariant, at most one row matches. The `.single()` case of several matching rows, which returns no data, is therefore never reached.
- GithubVerify.Post: the `projects` schema is not part of this model. The model takes (github_repo_url, user_id) to be a unique key, so an insert after a failed lookup of an existing row is refused. Without such a constraint, the database would accept that insert and the key would have two rows.

## Findings

| source | as written | input that shows it | evidently intended | confidence | as-written member | corrected member |
|---|---|---|---|---|---|---|
| app/api/pump-fun/create/route.ts:36-38 | the three placeholder keys are `new PublicKey(Math.random().toString())`, which decodes the number's text as base58 | any signed-in request with name, symbol, description and creator set: `Math.random()` gives e.g. `0.5`, whose text `"0.5"` contains `0` and `.`, neither in the alphabet, so the constructor throws and the route answers 500 | three placeholder addresses, and the 200 answer with `success: true` | medium, not executed (rests on the key library's string decoding) | `PumpFunCreate.AsWrittenNeverCreates` | `PumpFunCreate.Create` |
