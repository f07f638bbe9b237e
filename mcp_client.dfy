/** The agent bundle client (`components/MCPClient.tsx`): select article ids, ask
    the bundle negotiator for a quote, pay the invoice, and redeem the token.

    The selection is a JavaScript `Set`, whose iteration order is insertion order:
    here a sequence without repetitions. Each request is answered by the model of the
    negotiator (`McpRoute.Post`) over the catalog the server holds at that moment,
    unless the network fails, which is a parameter; so is `payInvoice`, whose
    definition is not part of this model. */
module McpClient {
  import opened Util
  import opened ArticleService
  import opened TokenCodec
  import opened McpRoute

  /** `ids` without `id`, in order (`Set.prototype.delete`). */
  function Without(ids: seq<string>, id: string): (r: seq<string>)
    ensures id !in r
    ensures forall x :: x != id ==> (x in r <==> x in ids)
    ensures IsSubsequence(r, ids)
  {
    Filter(ids, (x: string) => x != id)
  }

  /** `handleToggleArticle`'s update of the selection: delete when present, else add
      at the end of the insertion order. */
  function Toggle(ids: seq<string>, id: string): (r: seq<string>)
    requires Distinct(ids)
    ensures Distinct(r)
    ensures id in r <==> id !in ids
    ensures forall x :: x != id ==> (x in r <==> x in ids)
    ensures id !in ids ==> r == ids + [id]
    ensures id in ids ==> IsSubsequence(r, ids) && |r| == |ids| - 1
  {
    if id in ids then
      var r := Without(ids, id);
      SubsequenceDistinct(r, ids);
      WithoutPresentLength(ids, id);
      r
    else ids + [id]
  }

  lemma {:induction false} WithoutPresentLength(ids: seq<string>, id: string)
    requires Distinct(ids) && id in ids
    ensures |Without(ids, id)| == |ids| - 1
  {
    var keep := (x: string) => x != id;
    assert Distinct(ids[1..]) by {
      forall i, j | 0 <= i < j < |ids| - 1 ensures ids[1..][i] != ids[1..][j] {
        assert ids[i + 1] != ids[j + 1];
      }
    }
    if ids[0] == id {
      assert forall i :: 0 <= i < |ids| - 1 ==> keep(ids[1..][i]) by {
        forall i | 0 <= i < |ids| - 1 ensures ids[1..][i] != id {
          assert ids[0] != ids[i + 1];
        }
      }
      FilterKeepsAll(ids[1..], keep);
    } else {
      WithoutPresentLength(ids[1..], id);
    }
  }

  /** Toggling an unselected id twice restores the selection exactly; toggling a
      selected one twice keeps the same ids but moves it to the end of the order. */
  lemma {:induction false} ToggleTwice(ids: seq<string>, id: string)
    requires Distinct(ids)
    ensures id !in ids ==> Toggle(Toggle(ids, id), id) == ids
    ensures id in ids ==> Toggle(Toggle(ids, id), id) == Without(ids, id) + [id]
    ensures forall x :: x in Toggle(Toggle(ids, id), id) <==> x in ids
  {
    if id !in ids {
      var keep := (x: string) => x != id;
      FilterAppend(ids, [id], keep);
      FilterKeepsAll(ids, keep);
      assert Filter([id], keep) == [];
    }
  }

  /** What the quote displays and the purchase redeems. */
  datatype Challenge = Challenge(token: string, invoice: string)

  class Client {
    var selectedIds: seq<string>
    var quote: Option<Quote>
    var challenge: Option<Challenge>
    var purchasedContent: Option<seq<Article>>
    var isLoading: bool
    var error: Option<string>

    /** The selection has no repetitions, and a held challenge's token names exactly
        the current selection (any change of selection drops the challenge). */
    predicate Valid()
      reads this
    {
      && Distinct(selectedIds)
      && (challenge.Some? ==> DecodeToken(challenge.value.token) == Some(selectedIds))
    }

    constructor ()
      ensures selectedIds == []
      ensures quote == None && challenge == None && purchasedContent == None
      ensures !isLoading && error == None
      ensures Valid()
    {
      selectedIds := [];
      quote, challenge, purchasedContent := None, None, None;
      isLoading, error := false, None;
    }

    /** Toggles the id and clears everything derived from the previous selection. */
    method HandleToggleArticle(id: string)
      requires Valid()
      modifies this`selectedIds, this`quote, this`challenge, this`purchasedContent, this`error
      ensures selectedIds == Toggle(old(selectedIds), id)
      ensures quote == None && challenge == None && purchasedContent == None && error == None
      ensures Valid()
    {
      selectedIds := Toggle(selectedIds, id);
      quote, challenge, purchasedContent, error := None, None, None, None;
    }

    /** With nothing selected, reports an error and sends nothing. Otherwise sends
        `getQuote` for the selection in insertion order; `networkError` is the message
        of a failed `fetch`. Returns the request sent, if any. */
    method HandleGetQuote(catalog: seq<Article>, networkError: Option<string>) returns (sent: Option<Body>)
      requires Valid()
      modifies this`quote, this`challenge, this`purchasedContent, this`isLoading, this`error
      ensures old(selectedIds) == [] ==>
                sent == None && error == Some("Please select at least one article.")
                && quote == old(quote) && challenge == old(challenge)
                && purchasedContent == old(purchasedContent) && isLoading == old(isLoading)
      ensures selectedIds != [] ==> sent == Some(QuoteRequest(selectedIds)) && !isLoading && purchasedContent == None
      ensures selectedIds != [] && networkError.Some? ==>
                error == networkError && quote == old(quote) && challenge == old(challenge)
      ensures selectedIds != [] && networkError.None? ==>
                var r := Post(Some(QuoteRequest(selectedIds)), catalog);
                && r.QuoteIssued?
                && quote == Some(r.quote) && challenge == Some(Challenge(r.token, r.invoice))
                && error == None
                && r.quote.itemCount == |GetArticlesByIds(catalog, selectedIds)|
      ensures Valid()
    {
      if selectedIds == [] {
        error := Some("Please select at least one article.");
        return None;
      }
      isLoading, error, purchasedContent := true, None, None;
      sent := Some(QuoteRequest(selectedIds));
      if networkError.Some? {
        error := networkError;
      } else {
        // the negotiator answers every array of ids with a quote, so `res.ok` holds
        var r := Post(sent, catalog);
        QuoteAnswered(catalog, selectedIds);
        quote := Some(r.quote);
        challenge := Some(Challenge(r.token, r.invoice));
      }
      isLoading := false;
    }

    /** Without a challenge, does nothing. Otherwise pays the challenge's invoice and
        redeems its token with the preimage obtained; returns the request sent. */
    method HandlePurchase(payInvoice: string -> string, catalog: seq<Article>, networkError: Option<string>)
      returns (sent: Option<Body>)
      requires Valid()
      modifies this`purchasedContent, this`isLoading, this`error
      ensures old(challenge).None? ==> sent == None && unchanged(this)
      ensures challenge.Some? ==>
                sent == Some(PurchaseRequest(challenge.value.token, payInvoice(challenge.value.invoice)))
                && !isLoading
      ensures challenge.Some? && networkError.Some? ==>
                error == networkError && purchasedContent == old(purchasedContent)
      ensures challenge.Some? && networkError.None? && payInvoice(challenge.value.invoice) != "" ==>
                purchasedContent == Some(GetArticlesByIds(catalog, selectedIds)) && error == None
      ensures challenge.Some? && networkError.None? && payInvoice(challenge.value.invoice) == "" ==>
                purchasedContent == old(purchasedContent) && error == Some("Purchase verification failed.")
      ensures Valid()
    {
      if challenge.None? {
        return None;
      }
      isLoading, error := true, None;
      var preimage := payInvoice(challenge.value.invoice);
      sent := Some(PurchaseRequest(challenge.value.token, preimage));
      if networkError.Some? {
        error := networkError;
      } else {
        var r := Post(sent, catalog);
        if Status(r) != 200 || !r.Released? {
          error := Some("Purchase verification failed.");
        } else {
          purchasedContent := Some(r.articles);
        }
      }
      isLoading := false;
    }
  }

  /** Quoting and then purchasing, with the network up and a non-empty preimage,
      delivers exactly the catalog articles whose ids were selected, however the
      selection was ordered. */
  lemma {:induction false} QuoteThenPurchaseDelivers(catalog: seq<Article>, ids: seq<string>, other: seq<string>,
                                                     preimage: string)
    requires preimage != ""
    requires forall x :: x in ids <==> x in other
    ensures var q := Post(Some(QuoteRequest(ids)), catalog);
            Post(Some(PurchaseRequest(q.token, preimage)), catalog) == Released(GetArticlesByIds(catalog, other))
  {
    QuoteThenPurchase(catalog, ids, preimage);
    GetArticlesByIdsSameIds(catalog, ids, other);
  }
}
