# Hermes News: a Dafny model of the simulated L402 article marketplace

Hermes News is a Next.js news marketplace. Readers buy articles with a simulated
L402 exchange: the server answers `402 Payment Required` with a token and an
invoice, and the client pays and comes back with `Authorization: L402 <token>:<preimage>`.
An agent-facing bundle negotiator quotes and sells several articles at once.
The price of an article is its information value (IV) times 0.50 USD.

This project models the core of that system in Dafny and proves properties of the model:

- **Catalog** (`article_service.dfy`, module `ArticleService`). It holds the
  in-memory list of articles. It is filled once from sample data, `addArticle`
  puts new articles at the front, and lookups by id keep catalog order.
- **Bundle negotiator** (`mcp_route.dfy`, module `McpRoute`). It is the `POST`
  handler that quotes a list of ids, or releases the articles a token names. Its
  error cases answer 400 or 500.
- **Token and invoice encodings** (`token_codec.dfy`, module `TokenCodec`).
  - The token is the JSON text `{"articleIds":[…]}` and is decoded back from it.
  - The invoice is `ln_mcp_` followed by the lower-case hex of the UTF-8 bytes of
    the JSON array.
- **Client orchestrator** (`marketplace.dfy`, module `Marketplace`). The
  application's state is a class. Each handler is one step over it:
  - connect and disconnect the wallet;
  - upload and remove articles;
  - open an article, reading the 402 challenge with the expression `key="([^"]+)"`;
  - redeem: debit the price, send the L402 header, then move the article to the
    owned list or refund.
- **Purchase modal** (`purchase_modal.dfy`, module `PurchaseModal`). It runs the
  five-step flow calculating → negotiating → payment → confirming → complete.
  The offer stays within [0.5 × IV, 1.5 × IV], and payment requires sufficient
  funds.
- **Agent bundle client** (`mcp_client.dfy`, module `McpClient`).
  - The selection is a set with insertion order, and each toggle clears the
    quote.
  - A quote needs a non-empty selection, and a purchase needs a held challenge.
  - Its requests are answered by the model of the negotiator.
- **Form and display checks**:
  - the upload form (`upload_form.dfy`): all fields must be non-blank after trimming;
  - the header's shortened wallet address and which controls it shows (`header.dfy`);
  - the wallet-key dialog (`locus_connect_modal.dfy`): the trimmed key.
- **Shared vocabulary**:
  - `util.dfy`: options, JavaScript truthiness, and the order-keeping `filter`;
  - `text.dfy`: ECMAScript `trim` and `slice`.

Each React component's state is the fields of a class. Each handler is a method
whose `modifies` clause names what it updates. The following are method
parameters: `fetch` replies (or a network failure), `window.confirm` answers,
`Math.random` draws, generated ids and timestamps, and the result of `payInvoice`.

Two facts about the source are worth knowing when reading the model:

- `MarketplaceApp.tsx:255-260` passes the modal a `challenge` prop and a four-argument
  handler. `components/PurchaseModal.tsx:4-9` declares an `article` prop and a
  two-argument `onConfirm`. So, as wired, the modal receives no article and renders
  nothing. Each file is modelled against its own code.
- The client reads the invoice with the first match of `invoice="…"`. If a token
  ended in `invoice=`, that match would fall inside the token.
  `Marketplace.ReadsServerChallenge` therefore assumes the token does not end that
  way. The article route's base64 tokens never do, because their last group encodes
  `"}`.

## Model

| member | source | states |
|---|---|---|
| ArticleService.GetArticleById | services/articleService.ts:37-39 | None exactly when no article has the id; otherwise the article at the first index carrying it |
| ArticleService.GetArticlesByIds | services/articleService.ts:41-43 | the result is a subsequence of the catalog (catalog order) holding exactly the articles whose id was requested |
| ArticleService.GetArticlesByIdsKeepsCopies | services/articleService.ts:41-43 | a requested article is selected as many times as the catalog lists it |
| ArticleService.GetArticlesByIdsSameIds | services/articleService.ts:41-43 | two id lists with the same members select the same articles, whatever their order or repetitions |
| ArticleService.DuplicateIdsNotDoubleCounted | services/articleService.ts:41-43 | repeating a requested id does not change the selection |
| ArticleService.GetArticlesByAllIds | services/articleService.ts:41-43 | requesting every catalog id selects the whole catalog, in order |
| ArticleService.FromSample | services/articleService.ts:14-21 | a sample line keeps its title, publisher, author, time, category and text, gets the given id, falls back to "Summary not available." when its summary is missing or empty, and gets an IV in [1, 11) |
| ArticleService.Store.constructor | services/articleService.ts:5 | the catalog starts empty |
| ArticleService.Store.InitializeData | services/articleService.ts:11-29 | a non-empty catalog is left alone; a failed parse leaves it empty; otherwise it holds one article per sample line, in order |
| ArticleService.Store.GetAllArticles | services/articleService.ts:33-35 | returns the catalog as it is |
| ArticleService.Store.AddArticle | services/articleService.ts:45-55 | the new article carries the upload's fields, the given id, time and summary, an IV in [5, 15), and is put first with the rest unchanged |
| McpRoute.TotalIV | app/api/mcp/route.ts:18 | the `reduce` total of the selected articles' information values; a total of non-negative values is non-negative |
| McpRoute.QuoteFor | app/api/mcp/route.ts:16-19 | the item count never exceeds the catalog size |
| McpRoute.Post | app/api/mcp/route.ts:6-60 | non-array ids give 400 "articleIds must be an array"; an array of ids always gets a quote, which counts and prices the selected articles at 0.5 per IV point, and its token decodes back to the requested ids and its invoice is `ln_mcp_` followed by the lower-case hex of the UTF-8 bytes of the ids' JSON array (`Invoice`); a missing or empty token or preimage gives 400 "Missing token or preimage"; with both present, a token that decodes releases exactly the catalog articles it names and one that does not gives 500; a `getQuote` or `purchase` without a payload gives 500; any other action gives 400 "Invalid action"; an unreadable body gives 500 |
| McpRoute.QuoteAnswered | app/api/mcp/route.ts:10-33 | every `getQuote` for an id array gets a quote whose token decodes to exactly those ids and whose count is the number of selected catalog articles |
| McpRoute.QuoteThenPurchase | app/api/mcp/route.ts:10-52 | redeeming a quoted token with any non-empty preimage releases exactly the catalog articles with the quoted ids |
| McpRoute.QuoteIgnoresOrder | app/api/mcp/route.ts:16-28 | quotes for id lists with the same members are equal |
| McpRoute.EmptyQuote | app/api/mcp/route.ts:16-19 | an empty id list is quoted at zero items for zero |
| McpRoute.QuotePriceNonNegative | app/api/mcp/route.ts:18-19 | with non-negative information values, a quoted price is never negative |
| TokenCodec.ParseQuoted | app/api/mcp/route.ts:45 | reading back a string written by the JSON string escaper gives the string and leaves what follows its closing quote |
| TokenCodec.ParseArrayText | app/api/mcp/route.ts:45 | reading back the JSON text of a string array gives the array, in order, and the rest |
| TokenCodec.Quote | app/api/mcp/route.ts:22 | `JSON.stringify` of one string: the escaped text between quotes, read back by `ParseQuoted` |
| TokenCodec.ArrayText | app/api/mcp/route.ts:22-23 | `JSON.stringify` of an id array: `[]`, or the quoted ids between brackets separated by commas, read back by `ParseArrayText` |
| TokenCodec.EncodeToken | app/api/mcp/route.ts:22 | the token text is the object `{"articleIds":…}`: it starts with that key and ends with `}` |
| TokenCodec.DecodeToken | app/api/mcp/route.ts:45 | only a text of the object shape the encoder writes decodes; see `TokenRoundTrip` for its inverse |
| TokenCodec.DecodeSlashEscape | app/api/mcp/route.ts:45 | an id written with the escape `\/` decodes to `/`, as `JSON.parse` reads it |
| TokenCodec.DecodeUnicodeEscape | app/api/mcp/route.ts:45 | an id written as `\u0061` decodes to `a`, as `JSON.parse` reads it |
| TokenCodec.DecodeRejectsWhitespace | app/api/mcp/route.ts:45 | a token with a space after the key's colon does not decode, although `JSON.parse` reads it (a gap listed under Left out) |
| TokenCodec.TokenRoundTrip | app/api/mcp/route.ts:22-45 | decoding the token of an id list gives back exactly that list |
| TokenCodec.TokenInjective | app/api/mcp/route.ts:22 | distinct id lists get distinct tokens |
| TokenCodec.Utf8Char | app/api/mcp/route.ts:23 | a character encodes to one to four bytes |
| TokenCodec.Utf8 | app/api/mcp/route.ts:22-23 | `Buffer.from(text)`: between one and four bytes per character |
| TokenCodec.Hex | app/api/mcp/route.ts:23 | the hex text is twice as long as the bytes and holds only lower-case hex digits |
| TokenCodec.HexRoundTrip | app/api/mcp/route.ts:23 | decoding the hex text gives back the bytes |
| TokenCodec.Invoice | app/api/mcp/route.ts:23 | the invoice is `ln_mcp_` followed by an even number of lower-case hex digits that decode to the UTF-8 bytes of the ids' JSON array |
| Marketplace.MatchAt | MarketplaceApp.tsx:127-128 | the capture at one position, if the expression matches there; any match there has exactly this capture |
| Marketplace.FindParam | MarketplaceApp.tsx:127-128 | the capture of the leftmost match at or after a position, or None when no match starts there or later |
| Marketplace.MatchParam | MarketplaceApp.tsx:127-128 | the capture of the leftmost match in the header, and None exactly when nothing matches |
| Marketplace.ReadChallenge | MarketplaceApp.tsx:126-129 | a challenge is read exactly when both the token and the invoice expressions match |
| Marketplace.ReadsServerChallenge | MarketplaceApp.tsx:124-137 | from the header the article route writes, the client reads back that token and that invoice |
| Marketplace.ChallengeHeader | MarketplaceApp.tsx:125-129 | the `WWW-Authenticate` value the client reads (as the single-article route writes it): starts with `L402 ` and adds 25 fixed characters to the token and invoice, which `ReadsServerChallenge` reads back |
| Marketplace.AuthorizationRoundTrip | MarketplaceApp.tsx:166 | the redemption header starts with `L402` and splits back into token and preimage for tokens without a colon |
| Marketplace.AuthorizationHeader | MarketplaceApp.tsx:166 | `L402 <token>:<preimage>`: the scheme tag, the token, a colon right after it, the preimage |
| Marketplace.Owns | MarketplaceApp.tsx:109 | some owned article has the id (`purchasedArticles.some`); a predicate |
| Marketplace.IsOk | MarketplaceApp.tsx:118 | `res.ok`: a status in [200, 300); a predicate |
| Marketplace.Debit | MarketplaceApp.tsx:161 | an unknown balance stays unknown; a known one drops by the price |
| Marketplace.Credit | MarketplaceApp.tsx:182 | an unknown balance stays unknown; a known one rises by the price |
| Marketplace.CreditUndoesDebit | MarketplaceApp.tsx:161-182 | the refund restores the balance the debit changed |
| Marketplace.RemoveById | MarketplaceApp.tsx:100 | the result keeps catalog order, holds no article with the id, and loses no other article |
| Marketplace.RemoveByIdKeepsCopies | MarketplaceApp.tsx:100 | a listing with another id survives as many times as it was listed |
| Marketplace.RemoveAbsentId | MarketplaceApp.tsx:100 | removing an id no article carries changes nothing |
| Marketplace.App.constructor | MarketplaceApp.tsx:17-27 | empty lists, no wallet, no selection, modals closed, no challenge |
| Marketplace.App.FetchArticles | MarketplaceApp.tsx:31-47 | a good reply replaces the list; a failed one leaves it; loading ends; nothing else changes |
| Marketplace.App.HandleConnectWallet | MarketplaceApp.tsx:49-51 | opens the connect dialog |
| Marketplace.App.HandleConfirmConnect | MarketplaceApp.tsx:53-59 | sets the address, a balance in [10, 30), and closes the dialog |
| Marketplace.App.HandleCloseConnectModal | MarketplaceApp.tsx:61-63 | closes the connect dialog |
| Marketplace.App.HandleDisconnectWallet | MarketplaceApp.tsx:65-73 | clears address and balance |
| Marketplace.App.HandleAddArticle | MarketplaceApp.tsx:75-96 | sends the data as given; on success the server's article is put first, otherwise the list is unchanged; loading ends |
| Marketplace.App.HandleRemoveArticle | MarketplaceApp.tsx:98-103 | when confirmed, every listing with the id is removed and the rest keep their order; otherwise nothing changes |
| Marketplace.App.HandleSelectArticle | MarketplaceApp.tsx:105-147 | the outcome is decided by the inputs: no wallet exactly when nothing happens; an owned article opens without a request; otherwise an OK reply carrying an article opens that article, a 402 whose header yields both values stores the challenge for that article and opens the purchase modal, and every other reply (none, 404, unreadable body, challenge missing a value) changes nothing |
| Marketplace.App.HandleCloseModal | MarketplaceApp.tsx:149-151 | clears the open article |
| Marketplace.App.HandleClosePurchaseModal | MarketplaceApp.tsx:153-156 | clears the challenge and closes the purchase modal |
| Marketplace.App.HandleConfirmPurchase | MarketplaceApp.tsx:158-186 | sends `L402 <token>:<preimage>`; on success the balance is debited, the article leaves the available list and the returned article heads the owned list and opens; on failure balance and lists are as before (debit refunded); the challenge is cleared and the modal closed either way |
| PurchaseModal.IndexOf | components/PurchaseModal.tsx:20 | -1 exactly when the value is absent; otherwise the first position holding it |
| PurchaseModal.StepIndex | components/PurchaseModal.tsx:19-20 | a step's index in the indicator's list is its rank in the flow |
| PurchaseModal.StepIndicator | components/PurchaseModal.tsx:18-34 | five marks; a mark shows a check exactly for steps before the current one, otherwise its number; it is filled for steps up to the current one; every mark but the last has a connector, filled exactly for earlier steps |
| PurchaseModal.NegotiatedPrice | components/PurchaseModal.tsx:78 | the offer's price at 0.50 USD per IV point: never negative and never above a non-negative offer |
| PurchaseModal.HasSufficientFunds | components/PurchaseModal.tsx:79 | the balance is known and at least the price; a predicate |
| PurchaseModal.SliderMin | components/PurchaseModal.tsx:100 | the slider's lower bound is non-negative and never above the article's IV |
| PurchaseModal.SliderMax | components/PurchaseModal.tsx:101 | the slider's upper bound is never below the article's IV |
| PurchaseModal.OfferRange | components/PurchaseModal.tsx:100-101 | for a non-negative IV the suggested value is within the slider, and any offer on it costs between 0.25 and 0.75 times the IV |
| PurchaseModal.StepAfterConfirm | components/PurchaseModal.tsx:81-93 | confirming never goes back and moves at most one step; the step changes exactly from negotiation, or from payment with sufficient funds |
| PurchaseModal.ConfirmTwice | components/PurchaseModal.tsx:81-87 | from negotiation two confirmations reach the confirmation step with funds, and stop at payment without |
| PurchaseModal.Modal.constructor | components/PurchaseModal.tsx:62-74 | mounting open with an article starts at calculation with the article's IV as the offer; the offer is within the slider |
| PurchaseModal.Modal.UpdateProps | components/PurchaseModal.tsx:66-74 | when `isOpen` or the article changes, the pending timer is dropped and an open modal with an article restarts at calculation with its IV; otherwise the state is kept; the offer stays within the slider |
| PurchaseModal.Modal.CalculationTimerFires | components/PurchaseModal.tsx:71 | a pending calculation timer moves the flow to negotiation |
| PurchaseModal.Modal.SetOffer | components/PurchaseModal.tsx:116 | the offer becomes the slider value, which stays within the slider |
| PurchaseModal.Modal.HandleConfirm | components/PurchaseModal.tsx:81-93 | the step advances as `StepAfterConfirm` says; a purchase of this article at the offer's price is scheduled exactly when payment moves to confirmation, and then the balance covers that price, which lies between 0.25 and 0.75 times the article's IV |
| PurchaseModal.Modal.CompletionTimerFires | components/PurchaseModal.tsx:87 | a pending completion timer moves the flow to complete |
| McpClient.Without | components/MCPClient.tsx:21 | removes the id, keeps every other id and their order |
| McpClient.Toggle | components/MCPClient.tsx:17-26 | the id's membership flips and no other id's does; the selection stays free of repetitions; an added id goes last in insertion order |
| McpClient.ToggleTwice | components/MCPClient.tsx:17-26 | toggling twice restores the same ids; an unselected id leaves the exact order, a selected one moves to the end |
| McpClient.Client.constructor | components/MCPClient.tsx:9-15 | empty selection, no quote, challenge, content or error |
| McpClient.Client.HandleToggleArticle | components/MCPClient.tsx:17-32 | toggles the id and clears quote, challenge, content and error |
| McpClient.Client.HandleGetQuote | components/MCPClient.tsx:34-57 | with nothing selected: error "Please select at least one article." and no request; otherwise sends the selection in insertion order and stores the negotiator's quote and challenge, or the network error; loading ends; a held challenge always names the current selection |
| McpClient.Client.HandlePurchase | components/MCPClient.tsx:59-78 | without a challenge nothing happens; otherwise sends the challenge's token with the preimage paid for its invoice; with a non-empty preimage the content is exactly the catalog articles of the current selection; an empty one gives "Purchase verification failed." |
| McpClient.QuoteThenPurchaseDelivers | components/MCPClient.tsx:34-78 | quoting one id order and redeeming delivers the articles of any list with the same ids |
| UploadForm.WithField | components/UploadForm.tsx:19-22 | the named field takes the value and every other field keeps its own |
| UploadForm.HasBlankField | components/UploadForm.tsx:27 | some field's trimmed value is empty; a predicate, characterised by `BlankFieldMeansWhitespace` |
| UploadForm.BlankFieldMeansWhitespace | components/UploadForm.tsx:27 | the form has a blank field exactly when some field is empty or whitespace only |
| UploadForm.Form.constructor | components/UploadForm.tsx:11-17 | all five fields start empty |
| UploadForm.Form.HandleChange | components/UploadForm.tsx:19-22 | only the named field changes |
| UploadForm.Form.HandleSubmit | components/UploadForm.tsx:24-33 | with a blank field nothing is uploaded and the form stays; otherwise the data is uploaded untrimmed, every uploaded field is non-blank, and the form is cleared |
| Header.TruncatedAddress | components/Header.tsx:11-13 | empty for a missing or empty address; otherwise the first (up to) six characters, `...`, and the last (up to) four |
| Header.TruncationOfLongAddress | components/Header.tsx:12 | an address of ten or more characters gives thirteen characters: its first six, `...`, its last four, from non-overlapping parts |
| Header.HeaderControls | components/Header.tsx:27-50 | the connect button exactly when there is no address; otherwise the shortened (non-empty) address and the wallet's balance, shown exactly when it is known |
| Text.Trim | components/UploadForm.tsx:27 | empty exactly when the string is all whitespace; otherwise starts and ends with non-whitespace; it is a slice of the string with only whitespace before and after it |
| Text.TrimIdempotent | components/LocusConnectModal.tsx:22-23 | trimming a trimmed string changes nothing |
| Text.ClampIndex | components/Header.tsx:12 | a `slice` bound is clamped into the string |
| Text.Slice | components/Header.tsx:12 | `slice`: never longer than the string; for in-range bounds exactly the segment between them, and empty when the end is not after the start |
| Util.Filter | services/articleService.ts:42 | `Array.prototype.filter`: a subsequence holding every accepted element and only accepted ones; copies are kept (`FilterCount`) |
| Util.Truthy | MarketplaceApp.tsx:106 | JavaScript truthiness of an optional string: present and non-empty; a predicate |
| LocusConnectModal.KeyToConnect | components/LocusConnectModal.tsx:21-27 | no key exactly when the typed key is all whitespace; otherwise the trimmed key, non-empty and without surrounding whitespace |
| LocusConnectModal.ConnectDisabled | components/LocusConnectModal.tsx:74 | the trimmed key is empty; a predicate, tied to `KeyToConnect` by `DisabledIffNoKey` |
| LocusConnectModal.DisabledIffNoKey | components/LocusConnectModal.tsx:74 | the Connect button is disabled exactly when pressing it would not connect |
| LocusConnectModal.ConnectedKeyIsStable | components/LocusConnectModal.tsx:22-23 | the key passed on, typed again, would be passed on unchanged |
| LocusConnectModal.Modal.constructor | components/LocusConnectModal.tsx:10-17 | the key starts empty |
| LocusConnectModal.Modal.SetOpen | components/LocusConnectModal.tsx:12-17 | closing clears the key, opening keeps it; a closed dialog holds no key |
| LocusConnectModal.Modal.SetKey | components/LocusConnectModal.tsx:60 | the key becomes the typed text while the dialog is open |
| LocusConnectModal.Modal.HandleConnect | components/LocusConnectModal.tsx:21-27 | connects with the trimmed key exactly when it is non-empty; an all-whitespace key connects nothing |

## Left out

- Post: some purchase tokens that the source redeems get 500 in the model. `JSON.parse` reads these texts, their `articleIds` is an array, and the source releases articles for them. The model rejects:
  - whitespace anywhere in the text;
  - extra keys, or keys in another order;
  - array elements that are not strings;
  - `\u` escapes of surrogates, as a pair or alone.

  The other JSON string escapes (`\"`, `\\`, `\/`, `\b`, `\f`, `\n`, `\r`, `\t` and `\u` of a non-surrogate, in either case of hex) are read as `JSON.parse` reads them. A text whose `articleIds` is missing or not an array gives 500 in both, since `join` or `includes` then throws.
- McpRoute.Post: `token` and `preimage` are modelled as optional strings only. The source's `!token || !preimage` test accepts any JSON value, so a truthy non-string preimage such as `1` or `true` also releases the articles.
- Post: `totalPrice` is the exact real product. Its `toFixed(2)` string is not modelled.
- TokenCodec.TokenRoundTrip: the base64 layer around the token is not modelled. The model's token stands for the text that `Buffer.from(token, 'base64')` decodes. That decoder is lenient: it skips whitespace and characters outside the alphabet, accepts missing padding and the URL-safe alphabet, so many base64 tokens decode to the same text. This leniency is not modelled.
- McpRoute.Post: `articleIds` is modelled as an array of strings only (`IdsArray`). The route accepts any JSON array, and a non-string element matches no article.
- Floating-point arithmetic: prices, balances and information values are exact reals.
- I/O and time are method parameters or not modelled at all:
  - `fetch`, `setTimeout` delays, `console` logging and `alert`;
  - `Math.random`, generated ids, `new Date()` and the transaction hash.
- Marketplace.App.HandleDisconnectWallet: it does not model the awaited `disconnectWallet`. That call always resolves after a delay.
- McpClient.Client.HandleGetQuote: it does not model the "Failed to get quote." branch. The model's negotiator quotes every request the client can send, so only a network failure produces an error.
- McpClient.Client.HandlePurchase: `payInvoice` is a total function parameter. Its definition is not part of this model, and a rejection of it is not modelled.
- Marketplace.App.FetchArticles: an OK reply whose body is valid JSON but not an article list (`null`, `{}`) is treated as a failed fetch. The source stores that value as the list.
- Marketplace.App.HandleAddArticle: an OK reply whose body is valid JSON but not an article is treated as a failed upload. The source puts that value first in the list.
- Marketplace.App.HandleConfirmPurchase: an OK reply whose body is valid JSON but not an article (`null`, `{}`) is treated as a failure and refunded. The source keeps the debit, removes the listing, and puts that value first among the owned articles and in the open article.
- Marketplace.App.HandleSelectArticle: an OK reply whose body is JSON `null` (the source then clears the open article) is not modelled; a reply's article is either an article or unreadable.
- PurchaseModal.Modal.UpdateProps: the effect's dependencies are compared by value. React compares the `article` object by reference.
- Strings are sequences of Unicode scalar values. JavaScript measures `length` and `slice` positions in UTF-16 code units, so Header.TruncatedAddress differs for characters outside the Basic Multilingual Plane.
- The following are not part of this model:
  - the single-article route `app/api/articles/[id]/route.ts` (only the challenge header it writes is used, in `Marketplace.ChallengeHeader`);
  - the article list and summarize routes;
  - the Gemini summarizer;
  - `LandingPage`, `ArticleCard`, `ArticleModal` and `Marketplace`;
  - the tab switcher (`activeTab`) and all rendering.
