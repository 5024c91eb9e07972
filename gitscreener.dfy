/**
 * The launches page (`/gitscreener`): each `project_launches` row is turned
 * into the props of one card by chains of JavaScript `||` fallbacks, and the
 * page shows an error, an empty state, or the cards in row order. The query
 * itself (ordering by `created_at`, `.limit(50)`) belongs to the database and
 * its result is an input.
 */
module Gitscreener {
  import opened Wrappers
  import opened JsSemantics

  /** The columns of a launch row that the page reads; a column the row lacks is `Undefined`. */
  datatype LaunchRow = LaunchRow(
    id: JsValue, mint: JsValue, ca: JsValue, name: JsValue, title: JsValue,
    symbol: JsValue, ticker: JsValue, description: JsValue, imageUrl: JsValue, image: JsValue,
    devWallet: JsValue, wallet: JsValue, createdAt: JsValue, pumpUrl: JsValue)

  /** The props given to one card, with its React key. */
  datatype LaunchCard = LaunchCard(
    key: string, name: string, symbol: string, description: JsValue, imageUrl: JsValue,
    mint: string, devWallet: string, createdAt: JsValue, pumpUrl: Option<string>)

  const UnnamedToken: string := "Unnamed Token"
  const PumpCoinPrefix: string := "https://pump.fun/coin/"

  /** `a || b || ""`, always a string. */
  function TextOr(a: JsValue, b: JsValue): (r: string)
    ensures Truthy(a) ==> r == a.s
    ensures !Truthy(a) && Truthy(b) ==> r == b.s
    ensures !Truthy(a) && !Truthy(b) ==> r == ""
  {
    if Truthy(a) then a.s else if Truthy(b) then b.s else ""
  }

  /** The props of the card for one row. */
  function Normalize(row: LaunchRow): (c: LaunchCard)
    // display name: name, else title, else the placeholder, so never empty
    ensures c.name != ""
    ensures Truthy(row.name) ==> c.name == row.name.s
    ensures !Truthy(row.name) && Truthy(row.title) ==> c.name == row.title.s
    ensures !Truthy(row.name) && !Truthy(row.title) ==> c.name == UnnamedToken
    // symbol, mint and dev wallet fall back to ticker, ca and wallet, then to ""
    ensures c.symbol == TextOr(row.symbol, row.ticker)
    ensures c.mint == TextOr(row.mint, row.ca)
    ensures c.devWallet == TextOr(row.devWallet, row.wallet)
    ensures c.imageUrl == Or(row.imageUrl, row.image)
    ensures c.description == row.description && c.createdAt == row.createdAt
    // the link uses the raw mint column, never the ca fallback
    ensures c.pumpUrl.Some? <==> Truthy(row.pumpUrl) || Truthy(row.mint)
    ensures Truthy(row.pumpUrl) ==> c.pumpUrl == Some(row.pumpUrl.s)
    ensures !Truthy(row.pumpUrl) && Truthy(row.mint) ==> c.pumpUrl == Some(PumpCoinPrefix + row.mint.s)
    ensures c.key == TemplateText(Or(row.mint, row.id)) + "-" + TemplateText(row.createdAt)
  {
    var name := Or(Or(row.name, row.title), Str(UnnamedToken));
    var pump := Or(row.pumpUrl, if Truthy(row.mint) then Str(PumpCoinPrefix + TemplateText(row.mint)) else Undefined);
    LaunchCard(
      key := TemplateText(Or(row.mint, row.id)) + "-" + TemplateText(row.createdAt),
      name := name.s,
      symbol := TemplateText(Or(Or(row.symbol, row.ticker), Str(""))),
      description := row.description,
      imageUrl := Or(row.imageUrl, row.image),
      mint := TemplateText(Or(Or(row.mint, row.ca), Str(""))),
      devWallet := TemplateText(Or(Or(row.devWallet, row.wallet), Str(""))),
      createdAt := row.createdAt,
      pumpUrl := if pump.Str? then Some(pump.s) else None)
  }

  /** A row that has only the `ca` address shows that address but gets no pump.fun link. */
  lemma CaOnlyGetsNoLink(row: LaunchRow)
    requires !Truthy(row.mint) && Truthy(row.ca) && !Truthy(row.pumpUrl)
    ensures Normalize(row).mint == row.ca.s && Normalize(row).pumpUrl == None
  {
  }

  /** The result of the `project_launches` query. */
  datatype LaunchQuery =
    | QueryError(message: string)
    | QueryData(data: Option<seq<LaunchRow>>)  // `None` for a null `data`
    | QueryThrew

  datatype PageView =
    | LoadFailed(text: string)
    | NoProjects
    | Cards(cards: seq<LaunchCard>)
    | Unavailable

  /** `GitscreenerContent`: the error branch, the empty branch, or one card per row in row order. */
  function Content(q: LaunchQuery): (v: PageView)
    ensures q.QueryError? <==> v.LoadFailed?
    ensures q.QueryError? ==> v.text == "Failed to load projects: " + q.message
    ensures v.NoProjects? <==> q.QueryData? && (q.data.None? || q.data.value == [])
    ensures q.QueryThrew? <==> v.Unavailable?
    ensures v.Cards? ==>
      && q.QueryData? && q.data.Some?
      && |v.cards| == |q.data.value| > 0
      && forall i :: 0 <= i < |v.cards| ==> v.cards[i] == Normalize(q.data.value[i])
  {
    match q
    case QueryThrew => Unavailable
    case QueryError(m) => LoadFailed("Failed to load projects: " + m)
    case QueryData(data) =>
      if data.None? || |data.value| == 0 then NoProjects
      else
        var rows := data.value;
        Cards(seq(|rows|, i requires 0 <= i < |rows| => Normalize(rows[i])))
  }
}
