/**
 * `app/services/conversation_manager.py`: the session table and one chat query against
 * it. The id generator, the search and the oracle are parameters.
 */
module ConversationManager {
  import opened Wrappers
  import opened PyStr
  import opened Invoice
  import opened LlmService
  import opened VectorStore

  /** The session table: conversation id to its turns, oldest first. */
  type Conversations = map<string, seq<string>>

  /** Every chat query asks the store for this many documents. */
  const SearchResults := 5

  /** `request.conversation_id or fresh`: a supplied, non-empty id is kept. */
  function ConversationId(requested: Option<string>, generated: string): (id: string)
    ensures requested.Some? && requested.value != [] ==> id == requested.value
    ensures requested.None? || requested.value == [] ==> id == generated
  {
    match requested
    case Some(id) => if id != [] then id else generated
    case None => generated
  }

  const LabelPrefix := "Document "

  /** `text` is "Document " followed by the decimal digits of `number`. */
  predicate NumberedLabel(text: string, number: nat) {
    && StartsWith(text, LabelPrefix)
    && (forall k :: |LabelPrefix| <= k < |text| ==> IsDigit(text[k]))
    && ParseDigits(text[|LabelPrefix|..]) == number
  }

  /** `[f"Document {i+1}" for i in range(n)]`: one label per document, numbered from 1. */
  function SourceLabels(n: nat): (labels: seq<string>)
    ensures |labels| == n
    ensures forall i :: 0 <= i < n ==> NumberedLabel(labels[i], i + 1)
  {
    var labels := seq(n, i requires 0 <= i < n => LabelPrefix + NatToString(i + 1));
    assert forall i :: 0 <= i < n ==> NumberedLabel(labels[i], i + 1) by {
      forall i | 0 <= i < n ensures NumberedLabel(labels[i], i + 1) {
        assert labels[i][..|LabelPrefix|] == LabelPrefix;
        assert labels[i][|LabelPrefix|..] == NatToString(i + 1);
        NatToStringRoundTrip(i + 1);
      }
    }
    labels
  }

  /** The labels are pairwise distinct, since each reads back as its own number. */
  lemma SourceLabelsDistinct(n: nat)
    ensures forall i, j :: 0 <= i < j < n ==> SourceLabels(n)[i] != SourceLabels(n)[j]
  {
    var labels := SourceLabels(n);
    forall i, j | 0 <= i < j < n ensures labels[i] != labels[j] {
      assert NumberedLabel(labels[i], i + 1) && NumberedLabel(labels[j], j + 1);
    }
  }

  /** `conversations.setdefault(id, []).extend([...])`: two turns appended to one session. */
  function AppendTurns(table: Conversations, id: string, query: string, answer: string): (t: Conversations)
    ensures t.Keys == table.Keys + {id}
    ensures t[id] == (if id in table then table[id] else []) + ["User: " + query, "Assistant: " + answer]
    ensures forall k :: k in table && k != id ==> t[k] == table[k]
  {
    table[id := (if id in table then table[id] else []) + ["User: " + query, "Assistant: " + answer]]
  }

  /** The `except` branch of `process_query`: an apology, no sources, the table untouched. */
  function QueryFailed(request: ChatRequest, cause: string, freshIdOnError: string): (response: ChatResponse)
    ensures !response.success && response.sources == []
    ensures StartsWith(response.response, ApologyPrefix)
    ensures response.conversationId == ConversationId(request.conversationId, freshIdOnError)
  {
    assert (ApologyPrefix + cause)[..|ApologyPrefix|] == ApologyPrefix;
    ChatResponse(ApologyPrefix + cause, [], ConversationId(request.conversationId, freshIdOnError), false)
  }

  /**
   * The `try` branch of `process_query`, once the search has returned `docs`: a successful
   * answer citing one numbered source per document, and the session (and only it) two
   * turns longer.
   */
  function QueryAnswered(oracle: Oracle, table: Conversations, request: ChatRequest, docs: seq<string>, freshId: string)
    : (r: (ChatResponse, Conversations))
    ensures var id := ConversationId(request.conversationId, freshId);
      && r.0.success
      && r.0.conversationId == id
      && r.0.response == GenerateChatResponse(oracle, request.query, docs)
      && |r.0.sources| == |docs|
      && (forall i :: 0 <= i < |docs| ==> NumberedLabel(r.0.sources[i], i + 1))
      && r.1.Keys == table.Keys + {id}
      && r.1[id] == (if id in table then table[id] else []) + ["User: " + request.query, "Assistant: " + r.0.response]
      && (forall k :: k in table && k != id ==> r.1[k] == table[k])
  {
    var id := ConversationId(request.conversationId, freshId);
    var answer := GenerateChatResponse(oracle, request.query, docs);
    (ChatResponse(answer, SourceLabels(|docs|), id, true), AppendTurns(table, id, request.query, answer))
  }

  /**
   * `process_query`. `freshId` is the uuid drawn for a request without an id, and
   * `freshIdOnError` the one the error path draws. The search is asked for five documents;
   * the answer comes from `generate_chat_response`, which never raises.
   */
  function ProcessQuery(
    oracle: Oracle, search: Search, table: Conversations, request: ChatRequest,
    freshId: string, freshIdOnError: string)
    : (r: (ChatResponse, Conversations))
    // a failing search leaves the table alone and apologises
    ensures search(request.query, SearchResults).Failure? ==>
      && r.0 == QueryFailed(request, search(request.query, SearchResults).error, freshIdOnError)
      && r.1 == table
    // otherwise the session gains exactly the two turns and every other session is unchanged
    ensures search(request.query, SearchResults).Success? ==>
      var docs := search(request.query, SearchResults).value;
      var id := ConversationId(request.conversationId, freshId);
      && r.0.success
      && r.0.conversationId == id
      && r.0.response == GenerateChatResponse(oracle, request.query, docs)
      && r.0.sources == SourceLabels(|docs|)
      && (forall i :: 0 <= i < |docs| ==> NumberedLabel(r.0.sources[i], i + 1))
      && r.1.Keys == table.Keys + {id}
      && r.1[id] == (if id in table then table[id] else []) + ["User: " + request.query, "Assistant: " + r.0.response]
      && (forall k :: k in table && k != id ==> r.1[k] == table[k])
  {
    match search(request.query, SearchResults)
    case Failure(cause) => (QueryFailed(request, cause, freshIdOnError), table)
    case Success(docs) => QueryAnswered(oracle, table, request, docs, freshId)
  }

  /**
   * A query touches only its own session, so two queries on different sessions leave the
   * same table whichever runs first.
   */
  lemma QueriesOnDistinctSessionsCommute(
    oracle: Oracle, search: Search, table: Conversations,
    first: ChatRequest, second: ChatRequest, fresh1: string, fresh2: string, onError1: string, onError2: string)
    requires ConversationId(first.conversationId, fresh1) != ConversationId(second.conversationId, fresh2)
    ensures
      var afterFirst := ProcessQuery(oracle, search, table, first, fresh1, onError1).1;
      var afterSecond := ProcessQuery(oracle, search, table, second, fresh2, onError2).1;
      ProcessQuery(oracle, search, afterFirst, second, fresh2, onError2).1
        == ProcessQuery(oracle, search, afterSecond, first, fresh1, onError1).1
  {
    var afterFirst := ProcessQuery(oracle, search, table, first, fresh1, onError1).1;
    var afterSecond := ProcessQuery(oracle, search, table, second, fresh2, onError2).1;
    var one := ProcessQuery(oracle, search, afterFirst, second, fresh2, onError2).1;
    var two := ProcessQuery(oracle, search, afterSecond, first, fresh1, onError1).1;
    assert one.Keys == two.Keys;
    forall k | k in one ensures one[k] == two[k] {
    }
  }
}
