# FinancePlanner core, modelled in Dafny

FinancePlanner (FinexAI) is a personal finance tracker: an Express and MongoDB
server that stores a user's income and expense transactions, answers questions
about them through a Gemini model, and a React client that lists, filters and
pages the transactions, chats with the assistant and renders the assistant's
markdown-like replies. This project models the parts of it whose behaviour the
code states outright, and proves what that code promises.

- `transaction_model.dfy` — the transaction record: required fields, the
  `income`/`expense` enum, `amount >= 0`, the `"Cash"` and current-time
  defaults, the trimmed description.
- `transaction_service.dfy` — `TransactionStore`, a class over a sequence of
  records: the owner-scoped query with its optional type, category and day
  filters, newest-first order, offset paging with `total` and `totalPages`,
  and add, update and delete scoped to `{_id, userId}` with their 400, 404
  and 500 outcomes. `paging.dfy` holds the skip/limit slice and the ceiling
  division.
- `ai_routes.dfy` — the AI routes without the model: the bounded per-user chat
  history (`ChatStore`: push, then keep the last 30), the missing-question and
  no-transactions short-circuits, the context window of the newest 1000 or 2000
  records, fence stripping and the parse-or-fallback bodies. The model is a
  `ModelClient` that answers from a script; `JSON.parse` is a parameter.
  `chat_model.dfy` holds `slice(-n)`.
- `auth_service.dfy` — `UserStore`: registration with a unique email and a
  hashed password, and login whose two failures are indistinguishable; the
  hash and compare functions are parameters.
- `auth_middleware.dfy` — the `Bearer` header test, the token field, and the
  401/403/next decision, with `jwt.verify` and the user lookup as parameters.
- `analytics_page.dfy` — the client's recovery of predictions from a
  ```` ```json ```` block in the summary: greedy capture, trim, parse.
- `chat_bot_page.dfy`, `transaction_page.dfy` — the chat page and the
  transactions page as classes whose methods are the handlers: bounded append,
  request parameters, append or replace, `hasMore`, delete by id, show more,
  submit.
- `chat_interface.dfy`, `ai_insights_modal.dfy`, `line_syntax.dfy` — the two
  line-by-line renderers of assistant text: the line classifier of each, the
  `exec` loop that cuts bold segments in the chat, and the `split` with a
  capture group in the insights modal, each proved to rebuild its input.
- `form_patterns.dfy`, `signup_page.dfy`, `login_page.dfy` — the email and
  password regular expressions, the per-field error dictionaries that
  `validateForm` fills, and the submit handlers.
- `strings.dfy`, `options.dfy` — JavaScript string operations (`trim`,
  `split`, `replace`, `indexOf`, ASCII case folding) and `Option`/`Result`.

Requests, responses from other services and clocks are parameters of the
operations: a method that sends a request takes what came back as an argument
(`Outcome`, `Option<...>`), and a method that stamps a time takes `now`.

## Model

| member | source | states |
|---|---|---|
| TransactionModel.ParseType | server/src/models/transactionModel.js:8-12 | a type text is accepted exactly when it is "income" or "expense", and the accepted type's name is that text |
| TransactionModel.ParseTypeName | server/src/models/transactionModel.js:8-12 | the name of each type parses back to that type |
| TransactionModel.Build | server/src/models/transactionModel.js:3-18 | a record is built exactly when category is present, type is one of the enum and amount is present and at least 0; the built record conforms to the schema, keeps the given owner, category, type and amount, takes `date` from the draft or the current time, `paymentMode` from the draft or "Cash", stores the description trimmed and stamps `createdAt` and `updatedAt` |
| TransactionModel.TrimDescription | server/src/models/transactionModel.js:15 | an optional description is stored exactly when given, as its trimmed text, which trimming leaves unchanged |
| TransactionService.QueryFor | server/src/service/transactionService.js:8-26 | the query always carries the owner; it has a type exactly when the type filter is given and is not "all", a category exactly when the category filter is not blank, and the given day window; a record matches the query exactly when it is selected by owner and filters |
| TransactionService.FindAll | server/src/service/transactionService.js:31 | every record found matches the query, and the records found are drawn from the store |
| TransactionService.FindAllCount | server/src/service/transactionService.js:31 | each record occurs among those found as often as in the store when it matches the query, and not at all otherwise |
| TransactionService.InsertByDate | server/src/service/transactionService.js:32 | inserting one record into a newest-first list keeps it newest first and adds exactly that record |
| TransactionService.ConsNewestFirst | server/src/service/transactionService.js:32 | a record no older than the head of a newest-first list may go in front of it |
| TransactionService.SortNewestFirst | server/src/service/transactionService.js:32 | `sort({date: -1})`: the result is ordered by date, newest first, and is a permutation of the input |
| TransactionService.RankedCount | server/src/service/transactionService.js:31-32 | the sorted result holds each selected record as often as the store does and no other record |
| TransactionService.RankedSize | server/src/service/transactionService.js:36 | `total` (the count of matching records) is the length of the whole sorted result, not of one page |
| TransactionService.RankedMembers | server/src/service/transactionService.js:9-26 | every listed record is in the store, belongs to the user and passes the filters |
| TransactionService.PageFacts | server/src/service/transactionService.js:29-34 | every page is newest first and holds only selected records of the store |
| TransactionService.RecentWindowIsNewest | server/src/routes/aiRoutes.js:18 | the context the AI routes fetch (page 1, no filters) is the first min(limit, N) of the user's records newest first, none older than a record left out, all the user's own |
| TransactionService.ApplyPatch | server/src/service/transactionService.js:83-87 | an update keeps the id and the creation time and stamps `updatedAt`; the owner, type, amount and category become the body's values where it names them and stay otherwise, with no validation; a named description is stored trimmed; an empty body changes nothing else |
| TransactionService.PatchReassigns | server/src/service/transactionService.js:83-87 | the owner changes exactly when the body names a different `userId` |
| TransactionService.ReassignedIsLost | server/src/service/transactionService.js:83-87 | once a body reassigns a record, a lookup by its former owner and id finds nothing |
| TransactionService.PatchSkipsSchema | server/src/service/transactionService.js:83-87 | a body with an out-of-enum type or a negative amount is stored and leaves a record the schema would have refused |
| TransactionService.Locate | server/src/service/transactionService.js:84 | the record found matches both `_id` and `userId`; none is found exactly when no record matches both |
| TransactionService.TransactionStore.Find | server/src/service/transactionService.js:4-47 | status 200 with the page `[(page-1)*limit, (page-1)*limit+limit)` of the selected records sorted newest first, `total` as the count of all selected records, `currentPage` and `totalPages = ceil(total/limit)`; the store is not changed |
| TransactionService.TransactionStore.Add | server/src/service/transactionService.js:55-78 | a missing category or type or a falsy amount gives 400 "Missing required fields"; a draft the schema refuses (such as a negative amount) gives 500; otherwise 201 with the built record appended to the store; the store is unchanged on every failure |
| TransactionService.TransactionStore.Update | server/src/service/transactionService.js:81-97 | only the record matching both id and owner is patched with the body as `ApplyPatch` states, owner included, and it is returned as it is after the update (200); with no such record 404 and nothing changes; a malformed id gives 500 |
| TransactionService.TransactionStore.Delete | server/src/service/transactionService.js:100-112 | exactly the record matching both id and owner is removed and the others keep their order (200); with no such record 404 and nothing changes; a malformed id gives 500 |
| Paging.CeilDiv | server/src/service/transactionService.js:45 | `Math.ceil(total/limit)`: the least page count whose pages cover `total`, zero exactly when `total` is zero |
| Paging.PageOf | server/src/service/transactionService.js:29-34 | `skip((page-1)*limit).limit(limit)`: at most `limit` items, the slice starting at the skip, empty when the skip is past the end, and full unless it reaches the end |
| Paging.PageEmptyIffPastEnd | server/src/service/transactionService.js:29-45 | a page is empty exactly when its number exceeds `totalPages`; `total` does not depend on the page |
| Paging.PagesArePrefix | client/src/pages/transactionPage/TransactionPage.tsx:59-60 | appending pages 1 to k of the same list gives its first k·limit items |
| Paging.MorePagesIffUnseen | client/src/pages/transactionPage/TransactionPage.tsx:62 | `page < totalPages` exactly when fewer than `total` items have been shown |
| ChatModel.LastN | server/src/routes/aiRoutes.js:212-215 | `slice(-n)` on a list longer than n: the last n items; a shorter list is kept whole |
| ChatModel.LastNAbsorbs | server/src/routes/aiRoutes.js:204-217 | trimming a history to its last n, appending and trimming again equals appending to the full log and trimming once |
| ChatModel.AppendBounded | server/src/routes/aiRoutes.js:210-215 | after push and trim the history has at most n entries, ends with the new one, keeps the older ones in order and drops only the oldest |
| AiRoutes.ModelClient.GenerateContent | server/src/routes/aiRoutes.js:36-41 | each call records its prompt and returns the next scripted reply, or fails when none is left |
| AiRoutes.NormalizeForecast | server/src/routes/aiRoutes.js:93-99 | text that parses is returned as parsed, unchanged; otherwise `{summary: raw text, predictions: {}}` |
| AiRoutes.StripFencesIdentity | server/src/routes/aiRoutes.js:151 | on text with no triple backtick the stripping changes nothing |
| AiRoutes.StripFencesLeavesNoFence | server/src/routes/aiRoutes.js:151 | no triple backtick starts at any position of the stripped text |
| AiRoutes.StripFencesComplete | server/src/routes/aiRoutes.js:151 | the stripped text contains no triple backtick, so every fence is removed |
| AiRoutes.NormalizeRecommendations | server/src/routes/aiRoutes.js:149-155 | the fence-stripped text is parsed; on failure the result is `{summary: original unstripped text, recommendations: []}` |
| AiRoutes.RecommendationsWithoutFences | server/src/routes/aiRoutes.js:148-155 | on text with no fence the recommendations path parses what the predict path parses, and differs only in its fallback body |
| AiRoutes.TailOfLogStep | server/src/routes/aiRoutes.js:210-215 | pushing a message and keeping the last 30 keeps every stored history equal to the last 30 of everything ever pushed for that user |
| AiRoutes.ChatStore.Append | server/src/routes/aiRoutes.js:204-217 | the user's record is created when missing; the history becomes the last 30 of the old history plus the new message, ends with it and holds at most 30; other users' histories are untouched; the store keeps its invariant that each history is the tail of the full log |
| AiRoutes.ChatStore.Fetch | server/src/routes/aiRoutes.js:231-235 | `[]` for a user with no chat record, otherwise the stored messages in stored order |
| AiRoutes.FetchContext | server/src/routes/aiRoutes.js:18 | the context is page 1 with no filters of the user's transactions, of the given size |
| AiRoutes.PostInsights | server/src/routes/aiRoutes.js:13-49 | with no transactions 200 `{insights: "No transactions found."}` and no model call; otherwise one call on the newest 1000 records, whose text is returned, or 500 when it fails |
| AiRoutes.PostPredict | server/src/routes/aiRoutes.js:52-106 | with no transactions the fixed payload and no model call; otherwise one call on the newest 2000 records and the reply normalised as `NormalizeForecast` says, or 500 when it fails |
| AiRoutes.PostRecommendations | server/src/routes/aiRoutes.js:110-162 | as `PostPredict`, with the fences stripped before parsing and the recommendations fallback |
| AiRoutes.PostQuery | server/src/routes/aiRoutes.js:166-224 | a missing question gives 400 "Question is required." before any fetch, model call or history change; no transactions give the fixed answer and change nothing; otherwise one call, and on success the exchange is returned and appended to the user's history kept to the last 30; a failed call gives 500 and leaves the history alone |
| AiRoutes.Ask | server/src/routes/aiRoutes.js:183-219 | with context found: exactly one model call with the question and that context; a failed call gives 500 "Model request failed" and leaves the history alone; a reply is returned with the question and appended to the user's history, which keeps its last 30 exchanges |
| AiRoutes.GetQuery | server/src/routes/aiRoutes.js:228-240 | `{messages: []}` for a user with no record, otherwise the stored messages |
| AuthService.FindByEmail | server/src/service/authService.js:8 | `User.findOne({email})`: the first user with that email, and none exactly when no user has it |
| AuthService.FindAfterAppend | server/src/service/authService.js:22 | after a user with a new email is saved, looking that email up finds the new user and every other lookup is unchanged |
| AuthService.UserStore.CreateUser | server/src/service/authService.js:4-33 | a registered email gives 400 "Email is already registered" and adds no user; otherwise one user is added holding the name as `userName`, the email and `hash(password, salt)` rather than the password, 201 returns its id, and its email now finds it; `confirmPassword` plays no part |
| AuthService.UserStore.Login | server/src/service/authService.js:36-62 | an unknown email and a wrong password give the identical 400 "Invalid email or password"; 200 with the user's id exactly when the email's user exists and the password compares equal to its hash |
| AuthMiddleware.BearerFields | server/src/middleware/authMiddleware.js:13 | splitting a header that starts with "Bearer " on spaces gives "Bearer" and then the fields of the rest |
| AuthMiddleware.Token | server/src/middleware/authMiddleware.js:13 | `split(" ")[1]`: the text after "Bearer " up to the next space, holding no space |
| AuthMiddleware.DoubleSpaceEmptyToken | server/src/middleware/authMiddleware.js:13 | "Bearer  x" (two spaces) yields the empty token |
| AuthMiddleware.TokenOfHeader | server/src/middleware/authMiddleware.js:13 | a token without spaces is read back exactly from "Bearer " + token |
| AuthMiddleware.Decide | server/src/middleware/authMiddleware.js:6-28 | a missing header or one not starting with the case-sensitive "Bearer " gives 401 "Access denied. No token provided."; the request goes on exactly when the token verifies and its user exists, carrying the decoded claims; 401 "User not found." exactly when the token verifies but the user is absent; every other failure is 403 "Invalid or expired token." |
| AuthMiddleware.Exchange.VerifyToken | server/src/middleware/authMiddleware.js:6-28 | on success `req.user` is set to the claims and `next` is called exactly once with no response sent; on a denial one response with the decision's status and message is sent and `next` is not called |
| AnalyticsPage.LastIndexOf | client/src/pages/analyticsPage/AnalyticsPage.tsx:30 | the last occurrence of a pattern at or after a position, and none exactly when there is no such occurrence: where the greedy `([\s\S]*)` stops |
| AnalyticsPage.FenceCaptureSpec | client/src/pages/analyticsPage/AnalyticsPage.tsx:30 | `/```json([\s\S]*)```/`: there is a match exactly when some "```" starts at or after the end of a "```json"; the capture runs from just after the first "```json" to the start of the last "```" |
| AnalyticsPage.NoOpenFenceNoCapture | client/src/pages/analyticsPage/AnalyticsPage.tsx:30-31 | a summary without "```json" gives no match |
| AnalyticsPage.SingleBlockCapture | client/src/pages/analyticsPage/AnalyticsPage.tsx:30 | a summary with one fenced block and no other backtick captures exactly the block's body |
| AnalyticsPage.BlockOpensAt | client/src/pages/analyticsPage/AnalyticsPage.tsx:30 | the first "```json" of such a summary is the block's opening fence |
| AnalyticsPage.BlockClosesAt | client/src/pages/analyticsPage/AnalyticsPage.tsx:30 | the last "```" of such a summary is the block's closing fence |
| AnalyticsPage.Recover | client/src/pages/analyticsPage/AnalyticsPage.tsx:26-38 | the response is kept unchanged unless `predictions` is empty, `summary` is non-empty and the fence matches; when the trimmed capture parses, the parsed value replaces `data` entirely; a parse failure keeps `data` |
| AnalyticsPage.PredictionsView.FetchPredictions | client/src/pages/analyticsPage/AnalyticsPage.tsx:21-47 | a successful fetch sets the predictions to the recovered data and clears the error; a failed one keeps them and sets "Failed to fetch predictive analytics. Please try again."; loading ends false either way |
| ChatBotPage.ChatView.FetchMessages | client/src/pages/chatBotPage/ChatBotPage.tsx:25-33 | the messages become the server's list, or `[]` when the response has none; a failed fetch keeps them and sets "Failed to load chat history." |
| ChatBotPage.ChatView.HandleSend | client/src/pages/chatBotPage/ChatBotPage.tsx:40-56 | blank or whitespace-only input sends nothing and changes no state; otherwise the input is sent once and loading ends false; on success the messages become the last 30 of the old ones plus the new exchange and the input is cleared; on failure messages and input stay and the error text is set |
| ChatBotPage.ChatView.HandleKeyDown | client/src/pages/chatBotPage/ChatBotPage.tsx:59-64 | Enter without Shift leaves exactly the state `HandleSend` leaves: a blank input changes nothing; otherwise the input is sent once and loading ends false, with the last-30 append and a cleared input on success, or the error text on failure; any other key changes nothing |
| TransactionPage.RequestParams | client/src/pages/transactionPage/TransactionPage.tsx:51-54 | the params always hold the page and `limit = 10`; `type` exactly when the filter is not "all", `category` and `date` exactly when non-empty, each with the filter's value |
| TransactionPage.Received | server/src/service/transactionService.js:6-26 | what the service reads from the params: an absent type or category is the empty filter, and a date is present exactly when sent |
| TransactionPage.ParamsKeepSelection | client/src/pages/transactionPage/TransactionPage.tsx:51-54 | dropping "all", an empty category or an empty date from the request selects exactly the records the page's filter describes |
| TransactionPage.RemoveId | client/src/pages/transactionPage/TransactionPage.tsx:120 | `filter(tx => tx._id !== id)`: every row kept was in the list and has another id |
| TransactionPage.RemoveIdCount | client/src/pages/transactionPage/TransactionPage.tsx:120 | rows with that id are all removed and every other row is kept as often as it occurred |
| TransactionPage.RemoveIdConcat | client/src/pages/transactionPage/TransactionPage.tsx:120 | the filter works piece by piece, so the rows kept stay in their order |
| TransactionPage.RemoveIdAbsent | client/src/pages/transactionPage/TransactionPage.tsx:120 | deleting an id no row has leaves the list as it was |
| TransactionPage.TransactionsView.FetchTransactions | client/src/pages/transactionPage/TransactionPage.tsx:48-68 | the request carries `RequestParams` of the current filter; in append mode the list becomes old rows plus the new page, otherwise the new page alone; `hasMore == (nextPage < totalPages)`; a failed fetch keeps the list and `hasMore`; loading ends false |
| TransactionPage.TransactionsView.ApplyFilter | client/src/pages/transactionPage/TransactionPage.tsx:71-74 | a new filter resets the page to 1 and refetches page 1 in replace mode |
| TransactionPage.TransactionsView.OpenAddPopup | client/src/pages/transactionPage/TransactionPage.tsx:77-89 | the form is reset to the blank transaction, edit mode is off and the popup opens |
| TransactionPage.TransactionsView.OpenEditPopup | client/src/pages/transactionPage/TransactionPage.tsx:92-96 | the form holds the row, edit mode is on and the popup opens |
| TransactionPage.TransactionsView.HandleSubmit | client/src/pages/transactionPage/TransactionPage.tsx:99-114 | update is called in edit mode when an id is present and add otherwise; on success the popup closes, edit mode ends, the page resets to 1 and page 1 is refetched in replace mode; on failure nothing changes |
| TransactionPage.TransactionsView.HandleDelete | client/src/pages/transactionPage/TransactionPage.tsx:117-124 | a successful delete removes exactly the rows with that id, keeping the others in order; a failed delete changes nothing |
| TransactionPage.TransactionsView.HandleShowMore | client/src/pages/transactionPage/TransactionPage.tsx:127-131 | the page advances by one and that page is fetched in append mode |
| TransactionPage.ShowMoreAccumulates | client/src/pages/transactionPage/TransactionPage.tsx:59-62 | after k pages the list is the first 10·k rows of the full listing; one more show-more appends exactly the next page; more pages remain exactly while rows are unseen |
| ChatInterface.NextStar | client/src/components/chatBotComponent/ChatInterface.tsx:45 | the first `*` at or after a position, or the end: how far `[^\*]+?` can run |
| ChatInterface.BoldEnd | client/src/components/chatBotComponent/ChatInterface.tsx:45 | a match of `\*\*([^\*]+?)\*\*` starting at p ends at a closing `**` after at least one character |
| ChatInterface.BoldEndIsSpan | client/src/components/chatBotComponent/ChatInterface.tsx:45 | the regex matches at p with closing marker at q exactly when `**` sits at p and q and the text between is non-empty and holds no `*` |
| ChatInterface.NextBold | client/src/components/chatBotComponent/ChatInterface.tsx:49 | `regex.exec` from `lastIndex`: the position found starts a match |
| ChatInterface.NextBoldIsFirst | client/src/components/chatBotComponent/ChatInterface.tsx:49 | no match starts between `lastIndex` and the position found, and none at all when nothing is found |
| ChatInterface.SegmentsRebuild | client/src/components/chatBotComponent/ChatInterface.tsx:44-59 | putting the plain segments and `"**" + b + "**"` for each bold segment back together gives the text from `lastIndex` on |
| ChatInterface.SegmentsWellFormed | client/src/components/chatBotComponent/ChatInterface.tsx:45-58 | every segment is non-empty and every bold segment holds no `*` |
| ChatInterface.SegmentsOfText | client/src/components/chatBotComponent/ChatInterface.tsx:81-95 | the segments of a whole line rebuild that line exactly and are well formed |
| ChatInterface.SplitBold | client/src/components/chatBotComponent/ChatInterface.tsx:44-59 | the `while (regex.exec)` loop pushes exactly the segments `Segments` describes, which rebuild the input and are well formed |
| ChatInterface.BulletAtIndent | client/src/components/chatBotComponent/ChatInterface.tsx:38 | a bullet marker can only be the `*` right after the leading space |
| ChatInterface.BulletMatch | client/src/components/chatBotComponent/ChatInterface.tsx:38-41 | `/^(\s*)\*\s+(.*)/` matches exactly when leading space is followed by `*` and a space; the indent is the length of the leading space |
| ChatInterface.BulletMatchContent | client/src/components/chatBotComponent/ChatInterface.tsx:38-41 | the content is the text after `*` and the following white space, up to the first line terminator |
| ChatInterface.ClassifyKind | client/src/components/chatBotComponent/ChatInterface.tsx:14-101 | the fixed order skip, heading, divider, bullet, numbered, paragraph: each kind is given exactly when its test passes and every earlier one fails |
| ChatInterface.ClassifyHeading3 | client/src/components/chatBotComponent/ChatInterface.tsx:17-23 | a level-3 heading's text is the line with exactly its "### " prefix removed |
| ChatInterface.ClassifyHeading4 | client/src/components/chatBotComponent/ChatInterface.tsx:24-30 | a level-4 heading's text is the line with exactly its "#### " prefix removed |
| ChatInterface.ClassifyBullet | client/src/components/chatBotComponent/ChatInterface.tsx:38-69 | a bullet's indent is the length of the leading white space and its content the text after the `*` and the white space that follows |
| ChatInterface.ClassifyLine | client/src/components/chatBotComponent/ChatInterface.tsx:72-101 | a numbered item holds the trimmed line, which starts with digits and a period; a paragraph holds the whole non-blank line |
| ChatInterface.Render | client/src/components/chatBotComponent/ChatInterface.tsx:10-103 | one block per line of `text.split("\n")`, one more than the newlines, each the classification of its line |
| AiInsightsModal.CloseScan | client/src/components/transactionComponent/AiInsightsModal.tsx:46-47 | the lazy `(.*?)` scan: the closing `**` it finds lies within the text |
| AiInsightsModal.CloseScanIff | client/src/components/transactionComponent/AiInsightsModal.tsx:46-47 | the scan stops at e exactly when `**` is at e and every character before it from k is neither a line terminator nor the start of `**`: the nearest closing marker `.` can reach |
| AiInsightsModal.MatchAt | client/src/components/transactionComponent/AiInsightsModal.tsx:46-47 | a match of `\*\*(.*?)\*\*` at q lies within the text and closes after the opening marker |
| AiInsightsModal.MatchAtIff | client/src/components/transactionComponent/AiInsightsModal.tsx:46-47 | the regex matches at q with its closing marker at k exactly when the lazy-match conditions hold |
| AiInsightsModal.NextMatch | client/src/components/transactionComponent/AiInsightsModal.tsx:46-47 | the search from a position finds a position where the regex matches |
| AiInsightsModal.NextMatchIsFirst | client/src/components/transactionComponent/AiInsightsModal.tsx:46-47 | no match starts between the search position and the one found, and none at all when nothing is found: the leftmost match |
| AiInsightsModal.HasBoldIff | client/src/components/transactionComponent/AiInsightsModal.tsx:46 | `regex.test(line)` holds exactly when a lazy match exists somewhere in the line |
| AiInsightsModal.SplitFrom | client/src/components/transactionComponent/AiInsightsModal.tsx:47 | `split` with one capture group always yields an odd number of parts |
| AiInsightsModal.ChunkNoBold | client/src/components/transactionComponent/AiInsightsModal.tsx:47 | the text before the next match holds no match of its own |
| AiInsightsModal.MatchCapture | client/src/components/transactionComponent/AiInsightsModal.tsx:47 | a captured part holds no line terminator and no `**`, and does not end in `*` |
| AiInsightsModal.SplitAtMatch | client/src/components/transactionComponent/AiInsightsModal.tsx:47 | at each match the split emits the text before it and the capture, then splits the rest after the closing marker |
| AiInsightsModal.SplitRebuild | client/src/components/transactionComponent/AiInsightsModal.tsx:47-52 | rejoining the parts with `**` around each odd-indexed part gives back the text split |
| AiInsightsModal.SplitShaped | client/src/components/transactionComponent/AiInsightsModal.tsx:47-52 | odd-indexed parts are captures and even-indexed parts hold no bold match |
| AiInsightsModal.SplitOfLine | client/src/components/transactionComponent/AiInsightsModal.tsx:47-52 | a whole line's split rebuilds the line and has that shape |
| AiInsightsModal.ClassifyKind | client/src/components/transactionComponent/AiInsightsModal.tsx:10-72 | the fixed order headings, bullet, numbered, bold, divider, paragraph, skip: each kind is given exactly when its test passes and every earlier one fails, so the bold check runs before the divider check |
| AiInsightsModal.ClassifyHeading3 | client/src/components/transactionComponent/AiInsightsModal.tsx:12-18 | a level-3 heading's text is the line with exactly its "### " prefix removed |
| AiInsightsModal.ClassifyHeading4 | client/src/components/transactionComponent/AiInsightsModal.tsx:19-25 | a level-4 heading's text is the line with exactly its "#### " prefix removed |
| AiInsightsModal.ClassifyBullet | client/src/components/transactionComponent/AiInsightsModal.tsx:28-34 | a bullet keeps the untrimmed line with only the first "* ", the one right after the leading space, removed |
| AiInsightsModal.BulletText | client/src/components/transactionComponent/AiInsightsModal.tsx:31 | `line.replace("* ", "")` on such a line removes exactly the marker after the leading space |
| AiInsightsModal.ClassifyNumbered | client/src/components/transactionComponent/AiInsightsModal.tsx:37-43 | a numbered item holds the trimmed line, which starts with digits and a period |
| AiInsightsModal.ClassifyParagraph | client/src/components/transactionComponent/AiInsightsModal.tsx:46-68 | a bold paragraph and a plain paragraph both hold the line verbatim |
| AiInsightsModal.BoldParts | client/src/components/transactionComponent/AiInsightsModal.tsx:46-55 | for a line with `**…**` the parts are at least three, odd-indexed parts are bold captures, and rejoining them with `**` reproduces the line |
| AiInsightsModal.Render | client/src/components/transactionComponent/AiInsightsModal.tsx:8-73 | one block per line of `text.split("\n")`, one more than the newlines, each the classification of its line |
| LineSyntax.ReplacePrefix | client/src/components/transactionComponent/AiInsightsModal.tsx:15-22 | `replace(prefix, "")` on a line starting with the prefix removes exactly that prefix |
| LineSyntax.H4IsNotH3 | client/src/components/chatBotComponent/ChatInterface.tsx:17-24 | a "#### " line is never taken for a "### " one |
| LineSyntax.DigitRun | client/src/components/chatBotComponent/ChatInterface.tsx:72 | `\d+` at the start: the longest run of leading digits |
| LineSyntax.NumberedItemIff | client/src/components/transactionComponent/AiInsightsModal.tsx:37 | the test holds exactly when some period is preceded by digits only, at least one |
| LineSyntax.LineCount | client/src/components/transactionComponent/AiInsightsModal.tsx:9 | `text.split("\n")` has one line more than the text has newlines |
| FormPatterns.EmailPatternIff | client/src/pages/authPage/SignupPage.tsx:24 | `^[^\s@]+@[^\s@]+\.[^\s@]+$` accepts exactly a non-empty local part and a domain, neither holding white space or `@`, the domain with a `.` that is neither its first nor last character |
| FormPatterns.EmailAt | client/src/pages/authPage/SignupPage.tsx:24 | the `@` of a match is the first `@` of the text |
| FormPatterns.EmailHasOneAt | client/src/pages/authPage/SignupPage.tsx:24 | an accepted address holds exactly one `@` |
| FormPatterns.PasswordPatternIff | client/src/pages/authPage/SignupPage.tsx:29 | the pattern accepts exactly a password of at least 8 characters, none a line terminator, with an ASCII letter, a digit and one of the listed special characters |
| FormPatterns.LookaheadOnOneLine | client/src/pages/authPage/SignupPage.tsx:29 | on a single line each `(?=.*X)` only asks for some character of class X |
| FormPatterns.EveryIff | client/src/pages/authPage/SignupPage.tsx:24 | the recursive scan for "every character in the class" agrees with its quantified definition |
| FormPatterns.AnyIff | client/src/pages/authPage/SignupPage.tsx:29 | the recursive scan for "some character in the class" agrees with its quantified definition |
| FormPatterns.EmailTestIff | client/src/pages/authPage/SignupPage.tsx:24-26 | `emailRegex.test` as a scan from the first `@` gives the pattern's answer on every text |
| FormPatterns.PasswordTestIff | client/src/pages/authPage/SignupPage.tsx:29-31 | `passwordRegex.test` as a scan gives the pattern's answer on every password |
| FormPatterns.EmailErrorIff | client/src/pages/authPage/LoginPage.tsx:20-23 | the address gets a message exactly when the pattern rejects it: "Email is required" when empty, "Email is invalid" otherwise |
| FormPatterns.RefusalText | client/src/pages/authPage/SignupPage.tsx:60 | `message \|\| fallback`: a non-empty message is shown as is, a missing or empty one gives the fallback |
| SignupPage.AcceptableIff | client/src/pages/authPage/SignupPage.tsx:17-42 | a form passes every check exactly when the name is not blank, both patterns accept and the confirmation equals the password |
| SignupPage.ErrorsByField | client/src/pages/authPage/SignupPage.tsx:20-38 | only the four field keys appear; each field has an entry exactly when its check fails, holding the message of the first test it fails, so a field gets at most one message |
| SignupPage.ValidIff | client/src/pages/authPage/SignupPage.tsx:41 | no error keys exactly when every check passes |
| SignupPage.ValidateForm | client/src/pages/authPage/SignupPage.tsx:17-42 | the dictionary filled step by step is `Errors(form)`, and the result is true exactly when the form is acceptable |
| SignupPage.SignupView.Edit | client/src/pages/authPage/SignupPage.tsx:131-164 | an input's change replaces only its own field; errors stay as they were |
| SignupPage.SignupView.CreateUser | client/src/pages/authPage/SignupPage.tsx:44-71 | the errors are recomputed; an invalid form sends no request and changes nothing else; a valid one is sent once, as `Send` states |
| SignupPage.SignupView.Send | client/src/pages/authPage/SignupPage.tsx:49-70 | on success `UserId` and `JwtToken` are stored and the page moves to `/home`; a refusal shows the body's message or "Something went wrong", no response shows "Unable to connect. Please try again.", and both raise the alert; loading ends false |
| SignupPage.SignupView.DismissAlert | client/src/pages/authPage/SignupPage.tsx:66 | the alert is hidden and nothing else changes |
| LoginPage.AcceptableIff | client/src/pages/authPage/LoginPage.tsx:17-29 | a form passes exactly when the email pattern accepts and the password is non-empty; no strength rule applies |
| LoginPage.ErrorsByField | client/src/pages/authPage/LoginPage.tsx:20-25 | only the two keys appear; the email has an entry exactly when the pattern rejects it, with "Email is required" or "Email is invalid"; the password exactly when empty, with "Password is required" |
| LoginPage.ValidIff | client/src/pages/authPage/LoginPage.tsx:28 | no error keys exactly when both checks pass |
| LoginPage.ValidateForm | client/src/pages/authPage/LoginPage.tsx:17-29 | the dictionary filled step by step is `Errors(form)`, and the result is true exactly when the form is acceptable |
| LoginPage.LoginView.Edit | client/src/pages/authPage/LoginPage.tsx:122-135 | an input's change replaces only its own field; errors stay as they were |
| LoginPage.LoginView.LoginUser | client/src/pages/authPage/LoginPage.tsx:32-58 | the errors are recomputed; an invalid form never calls the login service and changes nothing else; a valid one is sent once, as `Send` states |
| LoginPage.LoginView.Send | client/src/pages/authPage/LoginPage.tsx:36-57 | on success `UserId` and `JwtToken` are stored and the page moves to `/home`; a refusal shows the body's message or "Invalid credentials", no response shows "Unable to connect. Please try again.", and both raise the alert; loading ends false |
| LoginPage.LoginView.DismissAlert | client/src/pages/authPage/LoginPage.tsx:54 | the alert is hidden and nothing else changes |

## Left out

- MongoDB is an in-memory sequence of records in each store class; `find`, `countDocuments`, `findOneAndUpdate`, `findOneAndDelete` and `save` become operations on it.
- TransactionService.SortNewestFirst: states the newest-first order and the permutation only; the database leaves the order among records with equal dates unspecified, so no order among them is promised.
- TransactionService.TransactionStore.Find: never fails; the 500 reply built from a database exception is not modelled. `page` and `limit` are required to be at least 1, which every caller in the repository meets: the transactions page sends limit 10 and a page from 1 up, and the AI routes send page 1 with limit 1000 or 2000. The controller defaults only a missing `page` or `limit` (to 1 and 10) and passes `Number(...)` of any other value through unchecked, so the source also accepts values the model excludes: a page of 0 or below gives a negative skip, which the database rejects, and the service answers 500 with the error's text; a non-numeric value gives NaN and likewise a 500; a limit of 0 means no limit to the database, so every selected record comes back with `totalPages` infinite, or NaN when nothing is selected.
- TransactionService.TransactionStore.Update: the body is applied as given, without the schema's validators, as `findOneAndUpdate` does by default; a body field that fails to cast (a malformed `userId`, a non-numeric amount) is not modelled, nor are `_id`, `createdAt` and `updatedAt` in the body, which the record keeps or the update stamps. Database exceptions other than a malformed id are not modelled.
- TransactionService.TransactionStore.Find: every page is cut from `Ranked`, one ranking of the selection fixed across requests, which orders records with equal dates in one deterministic way. The source issues a separate `sort({date: -1}).skip().limit()` for each page on a non-unique `date`, and the database promises no order among ties, so records tying across a page boundary can be shown twice or skipped; the model does not capture that. TransactionPage.ShowMoreAccumulates inherits the same assumption.
- TransactionService.TransactionStore.Add: the 500 reply carries a fixed message rather than the validation error's text.
- TransactionService.TransactionStore.Update: the 500 reply for a malformed id carries the fixed text "Cast to ObjectId failed" rather than the cast error's full message, which also names the value, the `_id` path and the model.
- TransactionService.TransactionStore.Delete: the 500 reply for a malformed id carries the fixed text "Cast to ObjectId failed" rather than the cast error's full message, which also names the value, the `_id` path and the model.
- The category filter is a regular expression built from user text; it is modelled as a case-insensitive substring match over ASCII letters, so metacharacters and non-ASCII case folding are not captured.
- `new Date(date)` and `setHours(23, 59, 59, 999)` depend on the time zone; the day they describe is an abstract `DayWindow` given to the query, and dates are integers.
- Amounts are `real`; floating-point rounding is not modelled.
- String lengths count characters; JavaScript counts UTF-16 code units, which differs outside the basic plane.
- The Gemini call: prompt wording, model name, temperature and token limits are left out. A prompt is its instruction and the transactions it carries; a reply is the next entry of a script, and a failed call gives a fixed 500 message rather than the exception's text.
- `JSON.parse` is an arbitrary partial function passed as a parameter, and `JSON.stringify` of the transactions is the transactions themselves; no JSON grammar is modelled.
- A failure of the chat store's `findOne` or `save` (a 500 after the model has answered) is not modelled.
- bcrypt is a `hash(password, salt)` function and a `compare` function passed as parameters; `genSalt` gives a `salt` parameter. jsonwebtoken's `verify` and `User.findById` are parameters of the middleware.
- AuthService.UserStore.CreateUser and AuthService.UserStore.Login: the 500 replies built from database exceptions are not modelled.
- React: rendering, styles, framer-motion, `useEffect` scheduling and the interleaving of asynchronous state updates. Each handler is one sequential state change, so the `isLoading = true` seen while a request is in flight is not observable in the model. The three-second timer that hides the error alert is the `DismissAlert` method, called whenever the timer fires.
- `localStorage` is a map field and navigation is a `location` field.
- `console.log` and `console.error` calls.
- The transactions page's `fetchAIInsights` and the insights modal's close button are not part of this model.
- The renderers produce blocks that carry text; the JSX they return is not modelled. The bold parts of a chat line and of an insights line are given by `ChatInterface.Segments` and `AiInsightsModal.SplitFrom` and the lemmas about them, rather than stored in the block.
- The `ml-${indent + 6}` class name of a chat bullet is not modelled; the indent itself is.
