/** The client purchase orchestrator (`MarketplaceApp.tsx`).

    The application state is a class whose fields are the component's React state;
    each handler is one sequential step over it. Replies of `fetch` (or its failure,
    None), `window.confirm` answers and `Math.random` draws are parameters. */
module Marketplace {
  import opened Util
  import opened ArticleService

  // ---------------------------------------------------------------------------
  // Reading the 402 challenge: the regular expression `key="([^"]+)"`
  // ---------------------------------------------------------------------------

  /** `key="v"` starts at position `i` of `h`, where `v` is non-empty, free of quotes
      and followed by a quote: the regular expression matches there, capturing `v`. */
  ghost predicate MatchesAt(h: string, key: string, i: int, v: string)
  {
    var s := i + |key| + 2;
    && 0 <= i
    && s + |v| < |h|
    && h[i..i + |key|] == key && h[i + |key|] == '=' && h[i + |key| + 1] == '"'
    && h[s..s + |v|] == v
    && h[s + |v|] == '"'
    && v != [] && '"' !in v
  }

  /** The longest prefix of `t` without a quote character (`[^"]*`, taken greedily). */
  function QuoteFreeRun(t: string): (r: string)
    ensures |r| <= |t| && r == t[..|r|] && '"' !in r
    ensures |r| == |t| || t[|r|] == '"'
  {
    if t == [] || t[0] == '"' then [] else [t[0]] + QuoteFreeRun(t[1..])
  }

  /** The capture of the expression when matched at exactly position `i`. */
  function MatchAt(h: string, key: string, i: nat): (r: Option<string>)
    requires i <= |h|
    ensures r.Some? ==> MatchesAt(h, key, i, r.value)
    ensures forall v :: MatchesAt(h, key, i, v) ==> r == Some(v)
  {
    var s := i + |key| + 2;
    if s <= |h| && h[i..i + |key|] == key && h[i + |key|] == '=' && h[i + |key| + 1] == '"' then
      var t := h[s..];
      var v := QuoteFreeRun(t);
      assert forall w :: MatchesAt(h, key, i, w) ==> w == v by {
        forall w | MatchesAt(h, key, i, w) ensures w == v {
          assert w == t[..|w|] && t[|w|] == '"';
        }
      }
      if v != [] && s + |v| < |h| then Some(v) else None
    else None
  }

  /** The leftmost match at or after position `i`. */
  function FindParam(h: string, key: string, i: nat): (r: Option<string>)
    requires i <= |h|
    ensures r.Some? ==> exists k :: i <= k <= |h| && MatchesAt(h, key, k, r.value)
                                    && forall j, v :: i <= j < k ==> !MatchesAt(h, key, j, v)
    ensures r.None? ==> forall j, v :: i <= j <= |h| ==> !MatchesAt(h, key, j, v)
    decreases |h| - i
  {
    var m := MatchAt(h, key, i);
    if m.Some? then m
    else if i == |h| then None
    else FindParam(h, key, i + 1)
  }

  /** `h.match(/key="([^"]+)"/)?.[1]`: the capture of the leftmost match, if any. */
  function MatchParam(h: string, key: string): (r: Option<string>)
    ensures r.Some? ==> exists k :: 0 <= k <= |h| && MatchesAt(h, key, k, r.value)
                                    && forall j, v :: 0 <= j < k ==> !MatchesAt(h, key, j, v)
    ensures r.None? <==> forall j, v :: 0 <= j <= |h| ==> !MatchesAt(h, key, j, v)
  {
    FindParam(h, key, 0)
  }

  /** Token and invoice read from a `WWW-Authenticate` value; None unless both are found. */
  function ReadChallenge(h: string): (r: Option<(string, string)>)
    ensures r.Some? <==> MatchParam(h, "token").Some? && MatchParam(h, "invoice").Some?
  {
    match (MatchParam(h, "token"), MatchParam(h, "invoice"))
    case (Some(token), Some(invoice)) => Some((token, invoice))
    case _ => None
  }

  /** The `WWW-Authenticate` value the single-article route sends with its 402. */
  function ChallengeHeader(token: string, invoice: string): (h: string)
    ensures |h| == |token| + |invoice| + 25 && h[..5] == "L402 "
  {
    "L402 token=\"" + token + "\", invoice=\"" + invoice + "\""
  }

  lemma MatchUnique(h: string, key: string, i: nat, v: string, w: string)
    requires i <= |h| && MatchesAt(h, key, i, v) && MatchesAt(h, key, i, w)
    ensures v == w
  {
    var _ := MatchAt(h, key, i);
  }

  /** A match at `k` with no match before it is what `MatchParam` returns. */
  lemma LeftmostMatch(h: string, key: string, k: nat, v: string)
    requires k <= |h| && MatchesAt(h, key, k, v)
    requires forall j, w :: 0 <= j < k ==> !MatchesAt(h, key, j, w)
    ensures MatchParam(h, key) == Some(v)
  {
    var r := MatchParam(h, key);
    var k' :| 0 <= k' <= |h| && MatchesAt(h, key, k', r.value)
              && forall j, w :: 0 <= j < k' ==> !MatchesAt(h, key, j, w);
    if k' == k {
      MatchUnique(h, key, k, v, r.value);
    }
  }

  /** Where the parts of a challenge header sit. */
  ghost predicate ChallengeLayout(h: string, token: string, invoice: string)
  {
    var n := |token|;
    && |h| == 25 + n + |invoice|
    && h[..12] == "L402 token=\""
    && h[12..12 + n] == token
    && h[12 + n..24 + n] == "\", invoice=\""
    && h[24 + n..24 + n + |invoice|] == invoice
    && h[24 + n + |invoice|] == '"'
  }

  lemma ChallengeHeaderLayout(token: string, invoice: string)
    ensures ChallengeLayout(ChallengeHeader(token, invoice), token, invoice)
  {
  }

  /** The token expression first matches right after `L402 `. */
  lemma ReadsToken(h: string, token: string, invoice: string)
    requires ChallengeLayout(h, token, invoice)
    requires token != [] && '"' !in token
    ensures MatchParam(h, "token") == Some(token)
  {
    assert MatchesAt(h, "token", 5, token);
    forall j, w | 0 <= j < 5 ensures !MatchesAt(h, "token", j, w) {
      assert h[j + 6] == h[..12][j + 6];
    }
    LeftmostMatch(h, "token", 5, token);
  }

  /** No match of the invoice expression starts before the `invoice=` the route wrote. */
  lemma NoEarlyInvoiceMatch(h: string, token: string, invoice: string, j: int, w: string)
    requires ChallengeLayout(h, token, invoice)
    requires '"' !in token
    requires !(|token| >= 8 && token[|token| - 8..] == "invoice=")
    requires 0 <= j < 15 + |token|
    ensures !MatchesAt(h, "invoice", j, w)
  {
    // one of the characters the expression needs is not there
    var n := |token|;
    var q := j + 8;
    if q < 11 {
      assert h[q] == h[..12][q];
    } else if q == 11 {
      assert h[3] == h[..12][3];
    } else if q < 12 + n {
      assert h[q] == token[q - 12];
    } else if q == 12 + n {
      if n >= 8 {
        assert token[n - 8..] == h[j..j + 8];
        assert h[j..j + 8] == h[j..j + 7] + [h[j + 7]];
      } else if n == 0 {
        assert h[j] == h[..12][4];
      } else {
        assert h[j..j + 7][11 - j] == h[..12][11];
      }
    } else {
      assert h[q] == h[12 + n..24 + n][q - 12 - n];
    }
  }

  /** The invoice expression first matches at the `invoice=` the route wrote. */
  lemma ReadsInvoice(h: string, token: string, invoice: string)
    requires ChallengeLayout(h, token, invoice)
    requires '"' !in token && invoice != [] && '"' !in invoice
    requires !(|token| >= 8 && token[|token| - 8..] == "invoice=")
    ensures MatchParam(h, "invoice") == Some(invoice)
  {
    var p := 15 + |token|;
    var mid := h[12 + |token|..24 + |token|];
    assert mid == "\", invoice=\"";
    assert h[p..p + 7] == mid[3..10] by {
      forall k | 0 <= k < 7 ensures h[p..p + 7][k] == mid[3..10][k] {
        assert h[p + k] == mid[3 + k];
      }
    }
    assert h[p + 7] == mid[10] && h[p + 8] == mid[11];
    assert MatchesAt(h, "invoice", p, invoice);
    forall j, w | 0 <= j < p ensures !MatchesAt(h, "invoice", j, w) {
      NoEarlyInvoiceMatch(h, token, invoice, j, w);
    }
    LeftmostMatch(h, "invoice", p, invoice);
  }

  /** The client reads back the token and invoice the route puts in its challenge,
      provided they hold no quote and the token does not end in `invoice=` (in which
      case the expression for the invoice would match inside the token). */
  lemma ReadsServerChallenge(token: string, invoice: string)
    requires token != [] && '"' !in token
    requires invoice != [] && '"' !in invoice
    requires !(|token| >= 8 && token[|token| - 8..] == "invoice=")
    ensures ReadChallenge(ChallengeHeader(token, invoice)) == Some((token, invoice))
  {
    var h := ChallengeHeader(token, invoice);
    ChallengeHeaderLayout(token, invoice);
    ReadsToken(h, token, invoice);
    ReadsInvoice(h, token, invoice);
  }

  // ---------------------------------------------------------------------------
  // Redemption header and balance
  // ---------------------------------------------------------------------------

  /** The `Authorization` value of the redemption request: `L402 <token>:<preimage>`. */
  function AuthorizationHeader(token: string, preimage: string): (h: string)
    ensures |h| == |token| + |preimage| + 6 && h[..5] == "L402 " && h[5 + |token|] == ':'
  {
    "L402 " + token + ":" + preimage
  }

  /** Splits an `Authorization` value at the first colon after the `L402 ` scheme tag. */
  function SplitAuthorization(h: string): Option<(string, string)>
  {
    if |h| >= 5 && h[..5] == "L402 " then SplitAtColon(h[5..]) else None
  }

  function SplitAtColon(s: string): (r: Option<(string, string)>)
    ensures r.Some? ==> ':' !in r.value.0 && s == r.value.0 + ":" + r.value.1
  {
    if s == [] then None
    else if s[0] == ':' then Some(([], s[1..]))
    else
      match SplitAtColon(s[1..])
      case None => None
      case Some((a, b)) => Some(([s[0]] + a, b))
  }

  /** The header carries the scheme tag and gives back token and preimage, for
      tokens without a colon (base64 has none). */
  lemma {:induction false} AuthorizationRoundTrip(token: string, preimage: string)
    requires ':' !in token
    ensures AuthorizationHeader(token, preimage)[..4] == "L402"
    ensures SplitAuthorization(AuthorizationHeader(token, preimage)) == Some((token, preimage))
  {
    var h := AuthorizationHeader(token, preimage);
    assert h[5..] == token + ":" + preimage;
    SplitTokenColon(token, preimage);
  }

  lemma {:induction false} SplitTokenColon(token: string, preimage: string)
    requires ':' !in token
    ensures SplitAtColon(token + ":" + preimage) == Some((token, preimage))
  {
    var s := token + ":" + preimage;
    if token != [] {
      assert s[1..] == token[1..] + ":" + preimage;
      SplitTokenColon(token[1..], preimage);
      assert [token[0]] + token[1..] == token;
    } else {
      assert s[1..] == preimage;
    }
  }

  /** `prev !== null ? prev - price : null`. */
  function Debit(balance: Option<real>, price: real): (r: Option<real>)
    ensures r.Some? <==> balance.Some?
    ensures r.Some? ==> r.value == balance.value - price
  {
    if balance.Some? then Some(balance.value - price) else None
  }

  /** `prev !== null ? prev + price : null`, the refund. */
  function Credit(balance: Option<real>, price: real): (r: Option<real>)
    ensures r.Some? <==> balance.Some?
    ensures r.Some? ==> r.value == balance.value + price
  {
    if balance.Some? then Some(balance.value + price) else None
  }

  /** The refund undoes the debit: the balance, or its absence, is restored. */
  lemma CreditUndoesDebit(balance: Option<real>, price: real)
    ensures Credit(Debit(balance, price), price) == balance
  {
  }

  // ---------------------------------------------------------------------------
  // Article lists
  // ---------------------------------------------------------------------------

  /** `prev.filter(a => a.id !== id)`. */
  function RemoveById(articles: seq<Article>, id: string): (r: seq<Article>)
    ensures IsSubsequence(r, articles)
    ensures forall i :: 0 <= i < |r| ==> r[i].id != id
    ensures forall i :: 0 <= i < |articles| && articles[i].id != id ==> articles[i] in r
  {
    Filter(articles, (a: Article) => a.id != id)
  }

  /** Every listing with another id survives the removal as often as it was listed. */
  lemma {:induction false} RemoveByIdKeepsCopies(articles: seq<Article>, id: string, a: Article)
    requires a.id != id
    ensures multiset(RemoveById(articles, id))[a] == multiset(articles)[a]
  {
    FilterCount(articles, (a: Article) => a.id != id, a);
  }

  /** Removing an id no article carries changes nothing. */
  lemma RemoveAbsentId(articles: seq<Article>, id: string)
    requires forall i :: 0 <= i < |articles| ==> articles[i].id != id
    ensures RemoveById(articles, id) == articles
  {
    FilterKeepsAll(articles, (a: Article) => a.id != id);
  }

  /** `purchased.some(p => p.id === id)`. */
  predicate Owns(purchased: seq<Article>, id: string)
  {
    exists i :: 0 <= i < |purchased| && purchased[i].id == id
  }

  // ---------------------------------------------------------------------------
  // The component
  // ---------------------------------------------------------------------------

  /** What `fetch('/api/articles/<id>')` answered: the status, the
      `WWW-Authenticate` header, and the body when it reads as an article. */
  datatype Reply = Reply(status: int, wwwAuthenticate: Option<string>, article: Option<Article>)

  /** What `fetch('/api/articles')` answered: the status and the list, when it reads as one. */
  datatype ListReply = ListReply(status: int, articles: Option<seq<Article>>)

  predicate IsOk(status: int)
  {
    200 <= status < 300
  }

  datatype PurchaseChallenge = PurchaseChallenge(invoice: string, token: string, article: Article)

  datatype SelectOutcome = NotConnected | OpenedOwned | OpenedFull | Challenged | FetchFailed

  class App {
    var articles: seq<Article>
    var purchasedArticles: seq<Article>
    var selectedArticle: Option<Article>
    var isLoading: bool
    var walletAddress: Option<string>
    var walletBalance: Option<real>
    var isConnectModalOpen: bool
    var isPurchaseModalOpen: bool
    var purchaseChallenge: Option<PurchaseChallenge>

    constructor ()
      ensures articles == [] && purchasedArticles == [] && selectedArticle == None
      ensures !isLoading && walletAddress == None && walletBalance == None
      ensures !isConnectModalOpen && !isPurchaseModalOpen && purchaseChallenge == None
    {
      articles, purchasedArticles, selectedArticle := [], [], None;
      isLoading, walletAddress, walletBalance := false, None, None;
      isConnectModalOpen, isPurchaseModalOpen, purchaseChallenge := false, false, None;
    }

    /** The mount effect: load the catalog; a failed load leaves the list as it was. */
    method FetchArticles(reply: Option<ListReply>)
      modifies this
      ensures reply.Some? && IsOk(reply.value.status) && reply.value.articles.Some?
              ==> articles == reply.value.articles.value
      ensures !(reply.Some? && IsOk(reply.value.status) && reply.value.articles.Some?)
              ==> articles == old(articles)
      ensures !isLoading
      ensures purchasedArticles == old(purchasedArticles) && walletBalance == old(walletBalance)
      ensures walletAddress == old(walletAddress) && purchaseChallenge == old(purchaseChallenge)
      ensures selectedArticle == old(selectedArticle)
      ensures isConnectModalOpen == old(isConnectModalOpen) && isPurchaseModalOpen == old(isPurchaseModalOpen)
    {
      isLoading := true;
      if reply.Some? && IsOk(reply.value.status) && reply.value.articles.Some? {
        articles := reply.value.articles.value;
      }
      isLoading := false;
    }

    method HandleConnectWallet()
      modifies this`isConnectModalOpen
      ensures isConnectModalOpen
    {
      isConnectModalOpen := true;
    }

    /** The wallet is connected with a simulated balance drawn in [10, 30). */
    method HandleConfirmConnect(address: string, draw: real)
      requires IsRandomDraw(draw)
      modifies this`walletAddress, this`walletBalance, this`isConnectModalOpen
      ensures walletAddress == Some(address)
      ensures walletBalance.Some? && 10.0 <= walletBalance.value < 30.0
      ensures !isConnectModalOpen
    {
      walletAddress := Some(address);
      walletBalance := Some(draw * 20.0 + 10.0);
      isConnectModalOpen := false;
    }

    method HandleCloseConnectModal()
      modifies this`isConnectModalOpen
      ensures !isConnectModalOpen
    {
      isConnectModalOpen := false;
    }

    /** Disconnecting clears the address and the balance. */
    method HandleDisconnectWallet()
      modifies this`walletAddress, this`walletBalance
      ensures walletAddress == None && walletBalance == None
    {
      walletAddress := None;
      walletBalance := None;
    }

    /** The uploaded article, as the server returned it, goes first in the list. */
    method HandleAddArticle(data: NewArticleData, reply: Option<Reply>) returns (sent: NewArticleData)
      modifies this`articles, this`isLoading
      ensures sent == data
      ensures reply.Some? && IsOk(reply.value.status) && reply.value.article.Some?
              ==> articles == [reply.value.article.value] + old(articles)
      ensures !(reply.Some? && IsOk(reply.value.status) && reply.value.article.Some?)
              ==> articles == old(articles)
      ensures !isLoading
    {
      isLoading := true;
      sent := data;
      if reply.Some? && IsOk(reply.value.status) && reply.value.article.Some? {
        articles := [reply.value.article.value] + articles;
      }
      isLoading := false;
    }

    /** After the user confirms, every listing with that id goes; the rest keep their order. */
    method HandleRemoveArticle(id: string, confirmed: bool)
      modifies this`articles
      ensures confirmed ==> articles == RemoveById(old(articles), id)
      ensures !confirmed ==> articles == old(articles)
    {
      if confirmed {
        articles := RemoveById(articles, id);
      }
    }

    /** Opening an article: without a wallet nothing happens; an owned article opens
        directly; otherwise the article is requested, and a 402 whose challenge header
        yields both token and invoice opens the purchase modal. */
    method HandleSelectArticle(article: Article, reply: Option<Reply>)
      returns (requested: bool, outcome: SelectOutcome)
      modifies this`selectedArticle, this`purchaseChallenge, this`isPurchaseModalOpen
      ensures !Truthy(walletAddress) ==> !requested && outcome == NotConnected && unchanged(this)
      ensures Truthy(walletAddress) && Owns(purchasedArticles, article.id) ==>
                !requested && outcome == OpenedOwned && selectedArticle == Some(article)
                && purchaseChallenge == old(purchaseChallenge) && isPurchaseModalOpen == old(isPurchaseModalOpen)
      ensures requested <==> Truthy(walletAddress) && !Owns(purchasedArticles, article.id)
      ensures outcome == NotConnected <==> !Truthy(walletAddress)
      ensures outcome == OpenedOwned <==> Truthy(walletAddress) && Owns(purchasedArticles, article.id)
      ensures outcome == OpenedFull <==>
                requested && reply.Some? && IsOk(reply.value.status) && reply.value.article.Some?
      ensures outcome == OpenedFull ==>
                selectedArticle == Some(reply.value.article.value)
                && purchaseChallenge == old(purchaseChallenge) && isPurchaseModalOpen == old(isPurchaseModalOpen)
      ensures outcome == Challenged <==>
                requested && reply.Some? && !IsOk(reply.value.status) && reply.value.status == 402
                && Truthy(reply.value.wwwAuthenticate) && ReadChallenge(reply.value.wwwAuthenticate.value).Some?
      ensures outcome == Challenged ==>
                var c := ReadChallenge(reply.value.wwwAuthenticate.value).value;
                purchaseChallenge == Some(PurchaseChallenge(c.1, c.0, article)) && isPurchaseModalOpen
                && selectedArticle == old(selectedArticle)
      ensures outcome == FetchFailed <==> requested && outcome != OpenedFull && outcome != Challenged
      ensures outcome == FetchFailed ==> unchanged(this)
    {
      if !Truthy(walletAddress) {
        return false, NotConnected;
      }
      if Owns(purchasedArticles, article.id) {
        selectedArticle := Some(article);
        return false, OpenedOwned;
      }
      requested := true;
      if reply.None? {
        return requested, FetchFailed;
      }
      var res := reply.value;
      if IsOk(res.status) {
        if res.article.Some? {
          selectedArticle := res.article;
          outcome := OpenedFull;
        } else {
          outcome := FetchFailed;
        }
        return;
      }
      if res.status == 402 && Truthy(res.wwwAuthenticate) {
        var challenge := ReadChallenge(res.wwwAuthenticate.value);
        if challenge.Some? {
          var (token, invoice) := challenge.value;
          purchaseChallenge := Some(PurchaseChallenge(invoice, token, article));
          isPurchaseModalOpen := true;
          return requested, Challenged;
        }
      }
      outcome := FetchFailed;
    }

    method HandleCloseModal()
      modifies this`selectedArticle
      ensures selectedArticle == None
    {
      selectedArticle := None;
    }

    method HandleClosePurchaseModal()
      modifies this`purchaseChallenge, this`isPurchaseModalOpen
      ensures purchaseChallenge == None && !isPurchaseModalOpen
    {
      purchaseChallenge := None;
      isPurchaseModalOpen := false;
    }

    /** Redemption: debit first, send `L402 <token>:<preimage>`, then either move the
        article from the available list to the owned list, or refund. The challenge
        is cleared whatever the outcome. */
    method HandleConfirmPurchase(purchased: Article, finalPrice: real, token: string, preimage: string,
                                 reply: Option<Reply>)
      returns (authorization: string, succeeded: bool)
      modifies this
      ensures authorization == AuthorizationHeader(token, preimage)
      ensures succeeded <==> reply.Some? && IsOk(reply.value.status) && reply.value.article.Some?
      ensures succeeded ==>
                && walletBalance == Debit(old(walletBalance), finalPrice)
                && articles == RemoveById(old(articles), purchased.id)
                && purchasedArticles == [reply.value.article.value] + old(purchasedArticles)
                && selectedArticle == reply.value.article
      ensures !succeeded ==>
                && walletBalance == old(walletBalance)
                && articles == old(articles) && purchasedArticles == old(purchasedArticles)
                && selectedArticle == old(selectedArticle)
      ensures purchaseChallenge == None && !isPurchaseModalOpen
      ensures walletAddress == old(walletAddress) && isLoading == old(isLoading)
      ensures isConnectModalOpen == old(isConnectModalOpen)
    {
      isPurchaseModalOpen := false;
      walletBalance := Debit(walletBalance, finalPrice);
      authorization := AuthorizationHeader(token, preimage);
      if reply.Some? && IsOk(reply.value.status) && reply.value.article.Some? {
        var full := reply.value.article.value;
        articles := RemoveById(articles, purchased.id);
        purchasedArticles := [full] + purchasedArticles;
        selectedArticle := Some(full);
        succeeded := true;
      } else {
        walletBalance := Credit(walletBalance, finalPrice);
        succeeded := false;
      }
      purchaseChallenge := None;
    }
  }
}
