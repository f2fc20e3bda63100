/**
 * The AI endpoints: each fetches a bounded window of the user's most
 * recent transactions, answers with a fixed "no data" payload without
 * calling the model when there are none, and otherwise sends one prompt to
 * the generative model. The forecast and recommendation replies are
 * parsed as JSON with a summary-only fallback; question answering keeps a
 * per-user chat record of the last 30 exchanges.
 */
module AiRoutes {
  import opened Options
  import opened Strings
  import opened Paging
  import opened TransactionModel
  import opened TransactionService
  import opened ChatModel

  /** Page sizes of the context fetch: insights read 1000 records, the other endpoints 2000. */
  const InsightsWindow: nat := 1000
  const ContextWindow: nat := 2000

  const NoTransactions := "No transactions found."
  const QuestionRequired := "Question is required."
  /** The error text of a failed model call (the client library's message is not modelled). */
  const ModelFailed := "Model request failed"

  /** What a prompt asks of the model; the template wording itself is not modelled. */
  datatype Task = Insights | Forecast | Recommendations | Answer(question: string)

  /** A prompt: the instruction and the transactions embedded in it. */
  datatype Prompt = Prompt(task: Task, transactions: seq<Transaction>)

  /**
   * The generative-model client. `replies` are the texts it will answer
   * with, in order; when none is left the call fails. `prompts` records
   * every call made.
   */
  class ModelClient {
    var replies: seq<string>
    var prompts: seq<Prompt>

    constructor (replies: seq<string>)
      ensures this.replies == replies && prompts == []
    {
      this.replies := replies;
      prompts := [];
    }

    method GenerateContent(p: Prompt) returns (text: Option<string>)
      modifies this
      ensures prompts == old(prompts) + [p]
      ensures old(replies) == [] ==> text == None && replies == []
      ensures old(replies) != [] ==> text == Some(old(replies)[0]) && replies == old(replies)[1..]
    {
      prompts := prompts + [p];
      if replies == [] {
        text := None;
      } else {
        text := Some(replies[0]);
        replies := replies[1..];
      }
    }
  }

  /** A JSON response body; `J` is whatever `JSON.parse` produces. */
  datatype Body<J> =
    | Field(key: string, text: string)            // { <key>: text }
    | Parsed(json: J)                             // the model's own JSON, passed through
    | PredictionsFallback(summary: string)        // { summary, predictions: {} }
    | RecommendationsFallback(summary: string)    // { summary, recommendations: [] }
    | Exchange(question: string, answer: string)  // { question, answer }
    | Messages(messages: seq<ChatMessage>)        // { messages }

  datatype Response<J> = Response(status: int, body: Body<J>)

  /**
   * The forecast normaliser: the raw text when it parses, otherwise a
   * summary-only result that keeps the text verbatim. It never fails.
   */
  function NormalizeForecast<J>(raw: string, parse: string -> Option<J>): (b: Body<J>)
    ensures parse(raw).Some? ==> b == Parsed(parse(raw).value)
    ensures parse(raw).None? ==> b == PredictionsFallback(raw)
  {
    match parse(raw)
    case Some(v) => Parsed(v)
    case None => PredictionsFallback(raw)
  }

  /** Three backticks start at index `i` of `s`. */
  predicate FenceAt(s: string, i: int) {
    0 <= i && i + 3 <= |s| && s[i] == '`' && s[i + 1] == '`' && s[i + 2] == '`'
  }

  /** `s.replace(/```json|```/g, "")`: scanning left to right, every "```json" and every other "```" is deleted. */
  function StripFences(s: string): (r: string)
    ensures |r| <= |s|
  {
    if StartsWith(s, "```json") then StripFences(s[7..])
    else if StartsWith(s, "```") then StripFences(s[3..])
    else if s == [] then []
    else [s[0]] + StripFences(s[1..])
  }

  lemma FenceAtOccurs(s: string, i: int)
    ensures FenceAt(s, i) <==> OccursAt(s, "```", i)
  {
    if 0 <= i && i + 3 <= |s| {
      if FenceAt(s, i) { assert s[i..i + 3] == "```"; }
      if OccursAt(s, "```", i) { assert s[i..i + 3][0] == s[i] && s[i..i + 3][1] == s[i + 1] && s[i..i + 3][2] == s[i + 2]; }
    }
  }

  /** Text without a triple backtick passes through the stripping unchanged. */
  lemma {:induction false} StripFencesIdentity(s: string)
    requires !Contains(s, "```")
    ensures StripFences(s) == s
  {
    FenceAtOccurs(s, 0);
    if s != [] {
      assert !StartsWith(s, "```") && !StartsWith(s, "```json");
      forall i | 0 <= i <= |s[1..]| - 3 ensures !OccursAt(s[1..], "```", i) {
        FenceAtOccurs(s[1..], i);
        FenceAtOccurs(s, i + 1);
        assert !(0 <= i + 1 <= |s| - 3 && OccursAt(s, "```", i + 1));
      }
      StripFencesIdentity(s[1..]);
    }
  }

  /** A stripped text that starts with a backtick comes from a text that does. */
  lemma {:induction false} StripFencesHead(s: string)
    ensures |StripFences(s)| >= 1 && StripFences(s)[0] == '`' ==> |s| >= 1 && s[0] == '`'
    ensures |StripFences(s)| >= 2 && StripFences(s)[0] == '`' && StripFences(s)[1] == '`' ==>
              |s| >= 2 && s[0] == '`' && s[1] == '`'
  {
    if StartsWith(s, "```json") {
      assert s[..7][0] == s[0] && s[..7][1] == s[1];
    } else if StartsWith(s, "```") {
      assert s[..3][0] == s[0] && s[..3][1] == s[1];
    } else if s != [] {
      StripFencesHead(s[1..]);
    }
  }

  /** After stripping no triple backtick is left, even where a deletion brings backticks together. */
  lemma {:induction false} StripFencesLeavesNoFence(s: string)
    ensures forall i :: !FenceAt(StripFences(s), i)
  {
    if StartsWith(s, "```json") {
      StripFencesLeavesNoFence(s[7..]);
    } else if StartsWith(s, "```") {
      StripFencesLeavesNoFence(s[3..]);
    } else if s != [] {
      var rest := StripFences(s[1..]);
      StripFencesLeavesNoFence(s[1..]);
      StripFencesHead(s[1..]);
      var r := [s[0]] + rest;
      forall i ensures !FenceAt(r, i) {
        if i >= 1 {
          assert !FenceAt(rest, i - 1);
        }
      }
    }
  }

  /** No triple backtick survives stripping. */
  lemma StripFencesComplete(s: string)
    ensures !Contains(StripFences(s), "```")
  {
    StripFencesLeavesNoFence(s);
    forall i | 0 <= i <= |StripFences(s)| - 3 ensures !OccursAt(StripFences(s), "```", i) {
      FenceAtOccurs(StripFences(s), i);
    }
  }

  /**
   * The recommendations normaliser: fences are stripped before parsing, and
   * on failure the summary keeps the original, unstripped text.
   */
  function NormalizeRecommendations<J>(raw: string, parse: string -> Option<J>): (b: Body<J>)
    ensures parse(StripFences(raw)).Some? ==> b == Parsed(parse(StripFences(raw)).value)
    ensures parse(StripFences(raw)).None? ==> b == RecommendationsFallback(raw)
  {
    match parse(StripFences(raw))
    case Some(v) => Parsed(v)
    case None => RecommendationsFallback(raw)
  }

  /** A reply without fences is parsed as it is, as the forecast normaliser would. */
  lemma RecommendationsWithoutFences<J>(raw: string, parse: string -> Option<J>)
    requires !Contains(raw, "```")
    ensures parse(raw).Some? ==> NormalizeRecommendations(raw, parse) == NormalizeForecast(raw, parse)
    ensures parse(raw).None? ==> NormalizeRecommendations(raw, parse) == RecommendationsFallback(raw)
  {
    StripFencesIdentity(raw);
  }

  /** Every stored record is the last 30 of its user's log, and the two have the same users. */
  ghost predicate TailOfLog(chats: map<UserId, seq<ChatMessage>>, log: map<UserId, seq<ChatMessage>>) {
    && chats.Keys == log.Keys
    && forall u :: u in chats ==> chats[u] == LastN(log[u], MaxMessages)
  }

  /** Appending one exchange to a user's record and to the log keeps the record the tail of the log. */
  lemma TailOfLogStep(chats: map<UserId, seq<ChatMessage>>, log: map<UserId, seq<ChatMessage>>, userId: UserId, m: ChatMessage)
    requires TailOfLog(chats, log)
    ensures var stored := if userId in chats then chats[userId] else [];
      var whole := if userId in log then log[userId] else [];
      TailOfLog(chats[userId := LastN(stored + [m], MaxMessages)], log[userId := whole + [m]])
  {
    var whole := if userId in log then log[userId] else [];
    LastNAbsorbs(whole, [m], MaxMessages);
  }

  /**
   * The chat collection: one record per user holding the last 30
   * exchanges. `log` is every exchange ever appended, which the stored
   * record is always the tail of.
   */
  class ChatStore {
    var chats: map<UserId, seq<ChatMessage>>
    ghost var log: map<UserId, seq<ChatMessage>>

    ghost predicate Valid()
      reads this
    {
      TailOfLog(chats, log)
    }

    constructor ()
      ensures Valid() && chats == map[] && log == map[]
    {
      chats := map[];
      log := map[];
    }

    /** The stored messages of a user, or none when the user has no record. */
    function History(userId: UserId): seq<ChatMessage>
      reads this
    {
      if userId in chats then chats[userId] else []
    }

    /** Load or create the user's record, push the exchange, keep the last 30, save. */
    method Append(userId: UserId, m: ChatMessage)
      requires Valid()
      modifies this
      ensures Valid()
      ensures chats == old(chats)[userId := LastN(old(History(userId)) + [m], MaxMessages)]
      ensures log == old(log)[userId := (if userId in old(log) then old(log)[userId] else []) + [m]]
      ensures |History(userId)| <= MaxMessages && History(userId)[|History(userId)| - 1] == m
    {
      var messages := if userId in chats then chats[userId] else [];
      messages := messages + [m];
      if |messages| > MaxMessages {
        messages := messages[|messages| - MaxMessages..];
      }
      assert messages == LastN(History(userId) + [m], MaxMessages);
      ghost var whole := if userId in log then log[userId] else [];
      TailOfLogStep(chats, log, userId, m);
      chats := chats[userId := messages];
      log := log[userId := whole + [m]];
    }

    /** GET /query: the stored messages in stored order, or `[]` when the user has no record. */
    method Fetch(userId: UserId) returns (messages: seq<ChatMessage>)
      ensures userId !in chats ==> messages == []
      ensures userId in chats ==> messages == chats[userId]
    {
      if userId !in chats {
        return [];
      }
      messages := chats[userId];
    }
  }

  /** The context an endpoint fetches: page 1 of the user's records, no filters, newest first. */
  method FetchContext(store: TransactionStore, userId: UserId, window: nat) returns (txs: seq<Transaction>)
    requires window >= 1
    ensures txs == RecentWindow(store.records, userId, window)
  {
    var result := store.Find(userId, NoFilters, 1, window);
    txs := result.data.value.transactions;
  }

  /** POST /insights. */
  method PostInsights<J>(store: TransactionStore, model: ModelClient, userId: UserId) returns (r: Response<J>)
    modifies model
    ensures var ctx := RecentWindow(store.records, userId, InsightsWindow);
      && (ctx == [] ==> r == Response(200, Field("insights", NoTransactions)) && unchanged(model))
      && (ctx != [] ==> model.prompts == old(model.prompts) + [Prompt(Insights, ctx)])
      && (ctx != [] && old(model.replies) != [] ==> r == Response(200, Field("insights", old(model.replies)[0])))
      && (ctx != [] && old(model.replies) == [] ==> r == Response(500, Field("error", ModelFailed)))
  {
    var txs := FetchContext(store, userId, InsightsWindow);
    if |txs| == 0 {
      return Response(200, Field("insights", NoTransactions));
    }
    var text := model.GenerateContent(Prompt(Insights, txs));
    if text.None? {
      return Response(500, Field("error", ModelFailed));
    }
    r := Response(200, Field("insights", text.value));
  }

  /** POST /predict. */
  method PostPredict<J>(store: TransactionStore, model: ModelClient, userId: UserId, parse: string -> Option<J>)
    returns (r: Response<J>)
    modifies model
    ensures var ctx := RecentWindow(store.records, userId, ContextWindow);
      && (ctx == [] ==> r == Response(200, Field("predictions", NoTransactions)) && unchanged(model))
      && (ctx != [] ==> model.prompts == old(model.prompts) + [Prompt(Forecast, ctx)])
      && (ctx != [] && old(model.replies) != [] ==>
            r == Response(200, NormalizeForecast(old(model.replies)[0], parse)))
      && (ctx != [] && old(model.replies) == [] ==> r == Response(500, Field("error", ModelFailed)))
  {
    var txs := FetchContext(store, userId, ContextWindow);
    if |txs| == 0 {
      return Response(200, Field("predictions", NoTransactions));
    }
    var text := model.GenerateContent(Prompt(Forecast, txs));
    if text.None? {
      return Response(500, Field("error", ModelFailed));
    }
    r := Response(200, NormalizeForecast(text.value, parse));
  }

  /** POST /recommendations. */
  method PostRecommendations<J>(store: TransactionStore, model: ModelClient, userId: UserId, parse: string -> Option<J>)
    returns (r: Response<J>)
    modifies model
    ensures var ctx := RecentWindow(store.records, userId, ContextWindow);
      && (ctx == [] ==> r == Response(200, Field("recommendations", NoTransactions)) && unchanged(model))
      && (ctx != [] ==> model.prompts == old(model.prompts) + [Prompt(Recommendations, ctx)])
      && (ctx != [] && old(model.replies) != [] ==>
            r == Response(200, NormalizeRecommendations(old(model.replies)[0], parse)))
      && (ctx != [] && old(model.replies) == [] ==> r == Response(500, Field("error", ModelFailed)))
  {
    var txs := FetchContext(store, userId, ContextWindow);
    if |txs| == 0 {
      return Response(200, Field("recommendations", NoTransactions));
    }
    var text := model.GenerateContent(Prompt(Recommendations, txs));
    if text.None? {
      return Response(500, Field("error", ModelFailed));
    }
    r := Response(200, NormalizeRecommendations(text.value, parse));
  }

  /** POST /query; "" stands for an absent question. */
  method PostQuery<J>(store: TransactionStore, chats: ChatStore, model: ModelClient, userId: UserId, question: string)
    returns (r: Response<J>)
    requires chats.Valid()
    modifies chats, model
    ensures chats.Valid()
    ensures question == "" ==>
      r == Response(400, Field("error", QuestionRequired)) && unchanged(model) && unchanged(chats)
    ensures var ctx := RecentWindow(store.records, userId, ContextWindow);
      question != "" && ctx == [] ==>
        r == Response(200, Field("answer", NoTransactions)) && unchanged(model) && unchanged(chats)
    ensures var ctx := RecentWindow(store.records, userId, ContextWindow);
      question != "" && ctx != [] ==> model.prompts == old(model.prompts) + [Prompt(Answer(question), ctx)]
    ensures var ctx := RecentWindow(store.records, userId, ContextWindow);
      question != "" && ctx != [] && old(model.replies) == [] ==>
        r == Response(500, Field("error", ModelFailed)) && unchanged(chats)
    ensures var ctx := RecentWindow(store.records, userId, ContextWindow);
      question != "" && ctx != [] && old(model.replies) != [] ==>
        var answer := old(model.replies)[0];
        && r == Response(200, Exchange(question, answer))
        && chats.chats == old(chats.chats)[userId := LastN(old(chats.History(userId)) + [ChatMessage(question, answer)], MaxMessages)]
  {
    if question == "" {
      return Response(400, Field("error", QuestionRequired));
    }
    var txs := FetchContext(store, userId, ContextWindow);
    if |txs| == 0 {
      return Response(200, Field("answer", NoTransactions));
    }
    r := Ask(chats, model, userId, question, txs);
  }

  /** The part of POST /query after the context was found: one model call, and the exchange saved on success. */
  method Ask<J>(chats: ChatStore, model: ModelClient, userId: UserId, question: string, txs: seq<Transaction>)
    returns (r: Response<J>)
    requires chats.Valid()
    modifies chats, model
    ensures chats.Valid()
    ensures model.prompts == old(model.prompts) + [Prompt(Answer(question), txs)]
    ensures old(model.replies) == [] ==> r == Response(500, Field("error", ModelFailed)) && unchanged(chats)
    ensures old(model.replies) != [] ==>
      var answer := old(model.replies)[0];
      && r == Response(200, Exchange(question, answer))
      && chats.chats == old(chats.chats)[userId := LastN(old(chats.History(userId)) + [ChatMessage(question, answer)], MaxMessages)]
  {
    var text := model.GenerateContent(Prompt(Answer(question), txs));
    if text.None? {
      return Response(500, Field("error", ModelFailed));
    }
    var answer := text.value;
    chats.Append(userId, ChatMessage(question, answer));
    r := Response(200, Exchange(question, answer));
  }

  /** GET /query. */
  method GetQuery<J>(chats: ChatStore, userId: UserId) returns (r: Response<J>)
    ensures r == Response(200, Messages(if userId in chats.chats then chats.chats[userId] else []))
  {
    var messages := chats.Fetch(userId);
    r := Response(200, Messages(messages));
  }
}
