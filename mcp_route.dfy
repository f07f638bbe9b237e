/** The bundle negotiator (`app/api/mcp/route.ts`): one POST handler that either
    quotes a list of article ids (price, token, invoice) or, given a token and a
    preimage, releases the articles the token names.

    The handler is a pure function of the request body and the catalog snapshot it
    reads. Its answer is a discriminated result carrying the HTTP status. */
module McpRoute {
  import opened Util
  import opened ArticleService
  import opened TokenCodec

  const UsdPerIvPoint: real := 0.5

  /** The `articleIds` field of a payload: an array of ids or anything else. A payload
      that is a JSON primitive has no such field: it reads as
      `Payload(NotAnArray, None, None)`. */
  datatype IdsField = IdsArray(ids: seq<string>) | NotAnArray

  /** The fields of `payload` the two actions read; absent fields are None. A `null` or
      missing payload is the None of `Body.payload`, since destructuring it throws. */
  datatype Payload = Payload(articleIds: IdsField, token: Option<string>, preimage: Option<string>)

  /** The parsed request body `{ action, payload }`; a missing payload is None. */
  datatype Body = Body(action: string, payload: Option<Payload>)

  datatype Quote = Quote(itemCount: nat, totalPrice: real)

  datatype Response =
    | QuoteIssued(quote: Quote, token: string, invoice: string)
    | Released(articles: seq<Article>)
    | Failed(status: int, error: string)

  const InternalError: string := "Internal Server Error"

  function Status(r: Response): int
  {
    if r.Failed? then r.status else 200
  }

  /** `articles.reduce((sum, a) => sum + a.informationValue, 0)`, folded from the left.
      A total over articles of non-negative value is non-negative. */
  function TotalIV(articles: seq<Article>): (r: real)
    ensures (forall i :: 0 <= i < |articles| ==> articles[i].informationValue >= 0.0) ==> r >= 0.0
  {
    if articles == [] then 0.0
    else TotalIV(articles[..|articles| - 1]) + articles[|articles| - 1].informationValue
  }

  /** The quote for a list of ids: how many catalog articles it selects and their price. */
  function QuoteFor(catalog: seq<Article>, ids: seq<string>): (q: Quote)
    ensures q.itemCount <= |catalog|
  {
    var articles := GetArticlesByIds(catalog, ids);
    Quote(|articles|, TotalIV(articles) * UsdPerIvPoint)
  }

  /** `POST`. `body` is None when the request body is not valid JSON or is `null`
      (destructuring it throws); any other JSON value that is not an object has no
      `action` field and is `Some(Body("", None))`. */
  function Post(body: Option<Body>, catalog: seq<Article>): (r: Response)
    ensures r.Failed? ==> r.status == 400 || r.status == 500
    // getQuote
    ensures body.Some? && body.value.action == "getQuote" && body.value.payload.Some?
            && body.value.payload.value.articleIds.NotAnArray?
            ==> r == Failed(400, "articleIds must be an array")
    ensures body.Some? && body.value.action == "getQuote" && body.value.payload.Some?
            && body.value.payload.value.articleIds.IdsArray?
            ==> r.QuoteIssued?
    ensures r.QuoteIssued? ==>
              && body.Some? && body.value.action == "getQuote" && body.value.payload.Some?
              && body.value.payload.value.articleIds.IdsArray?
              && var ids := body.value.payload.value.articleIds.ids;
                 && r.quote.itemCount == |GetArticlesByIds(catalog, ids)| <= |catalog|
                 && r.quote.totalPrice == TotalIV(GetArticlesByIds(catalog, ids)) * 0.5
                 && DecodeToken(r.token) == Some(ids)
                 && |r.invoice| >= |InvoicePrefix| && r.invoice[..|InvoicePrefix|] == InvoicePrefix
                 && r.invoice == Invoice(ids)
    // purchase
    ensures body.Some? && body.value.action == "purchase" && body.value.payload.Some?
            && !(Truthy(body.value.payload.value.token) && Truthy(body.value.payload.value.preimage))
            ==> r == Failed(400, "Missing token or preimage")
    ensures body.Some? && body.value.action == "purchase" && body.value.payload.Some?
            && Truthy(body.value.payload.value.token) && Truthy(body.value.payload.value.preimage)
            ==> match DecodeToken(body.value.payload.value.token.value)
                case Some(ids) => r == Released(GetArticlesByIds(catalog, ids))
                case None => r == Failed(500, InternalError)
    ensures r.Released? ==>
              && body.Some? && body.value.action == "purchase" && body.value.payload.Some?
              && Truthy(body.value.payload.value.token) && Truthy(body.value.payload.value.preimage)
              && var ids := DecodeToken(body.value.payload.value.token.value);
                 ids.Some? && r.articles == GetArticlesByIds(catalog, ids.value)
    // everything else
    ensures body.Some? && body.value.action != "getQuote" && body.value.action != "purchase"
            ==> r == Failed(400, "Invalid action")
    ensures body.Some? && (body.value.action == "getQuote" || body.value.action == "purchase")
            && body.value.payload.None?
            ==> r == Failed(500, InternalError)
    ensures body.None? ==> r == Failed(500, InternalError)
  {
    match body
    case None => Failed(500, InternalError)
    case Some(b) =>
      if b.action == "getQuote" then
        match b.payload
        case None => Failed(500, InternalError)
        case Some(p) =>
          match p.articleIds
          case NotAnArray => Failed(400, "articleIds must be an array")
          case IdsArray(ids) =>
            TokenRoundTrip(ids);
            QuoteIssued(QuoteFor(catalog, ids), EncodeToken(ids), Invoice(ids))
      else if b.action == "purchase" then
        match b.payload
        case None => Failed(500, InternalError)
        case Some(p) =>
          if !Truthy(p.token) || !Truthy(p.preimage) then Failed(400, "Missing token or preimage")
          else
            match DecodeToken(p.token.value)
            case None => Failed(500, InternalError)
            case Some(ids) => Released(GetArticlesByIds(catalog, ids))
      else Failed(400, "Invalid action")
  }

  /** The body of a `getQuote` request for `ids`. */
  function QuoteRequest(ids: seq<string>): Body
  {
    Body("getQuote", Some(Payload(IdsArray(ids), None, None)))
  }

  /** The body of a `purchase` request. */
  function PurchaseRequest(token: string, preimage: string): Body
  {
    Body("purchase", Some(Payload(NotAnArray, Some(token), Some(preimage))))
  }

  /** Quote, then redeem the quoted token with any non-empty preimage: exactly the
      catalog articles named by the quoted ids are released, in catalog order. */
  lemma QuoteThenPurchase(catalog: seq<Article>, ids: seq<string>, preimage: string)
    requires preimage != ""
    ensures Post(Some(QuoteRequest(ids)), catalog).QuoteIssued?
    ensures var q := Post(Some(QuoteRequest(ids)), catalog);
            Post(Some(PurchaseRequest(q.token, preimage)), catalog)
              == Released(GetArticlesByIds(catalog, ids))
  {
    var q := Post(Some(QuoteRequest(ids)), catalog);
    TokenRoundTrip(ids);
    assert q.token == EncodeToken(ids);
    assert EncodeToken(ids) != "" by {
      assert |EncodeToken(ids)| >= |TokenPrefix|;
    }
  }

  /** Every `getQuote` request for an array of ids is answered with a quote whose
      token names exactly those ids. */
  lemma QuoteAnswered(catalog: seq<Article>, ids: seq<string>)
    ensures var r := Post(Some(QuoteRequest(ids)), catalog);
            && r.QuoteIssued?
            && DecodeToken(r.token) == Some(ids)
            && r.quote.itemCount == |GetArticlesByIds(catalog, ids)|
  {
    TokenRoundTrip(ids);
  }

  /** Quotes for the same set of ids agree, whatever the order or repetitions. */
  lemma QuoteIgnoresOrder(catalog: seq<Article>, ids1: seq<string>, ids2: seq<string>)
    requires forall x :: x in ids1 <==> x in ids2
    ensures Post(Some(QuoteRequest(ids1)), catalog).quote == Post(Some(QuoteRequest(ids2)), catalog).quote
  {
    GetArticlesByIdsSameIds(catalog, ids1, ids2);
  }

  /** An empty request is quoted at no items for nothing. */
  lemma EmptyQuote(catalog: seq<Article>)
    ensures Post(Some(QuoteRequest([])), catalog).quote == Quote(0, 0.0)
  {
  }

  /** With non-negative information values the quoted price is never negative. */
  lemma QuotePriceNonNegative(catalog: seq<Article>, ids: seq<string>)
    requires forall i :: 0 <= i < |catalog| ==> catalog[i].informationValue >= 0.0
    ensures Post(Some(QuoteRequest(ids)), catalog).quote.totalPrice >= 0.0
  {
    var r := GetArticlesByIds(catalog, ids);
    forall i | 0 <= i < |r| ensures r[i].informationValue >= 0.0 {
      SubsequenceMember(r, catalog, i);
    }
  }
}
