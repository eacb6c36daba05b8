/** lib/conversations.ts: conversation titles, the records written to the
    vector index when a conversation is saved, and the two ways a
    conversation search answers: vector matches grouped by conversation, or
    (without a vector index) the rows of a plain text search.

    The database, the embedding model and the vector index are parameters:
    the database row of the saved conversation, the embedding of a text
    (absent when the embedding call throws), the matches the index returned
    and the rows the text search returned. */
module Conversations {
  import opened Optional
  import opened Text
  import opened StableSort

  datatype Message = Message(role: string, content: string)

  // ---------------------------------------------------------------------
  // Titles

  /** `messages.find((msg) => msg.role === "user")`, as a position. */
  function FirstUserIndex(messages: seq<Message>): (r: Option<nat>)
    ensures r.Some? ==> r.value < |messages| && messages[r.value].role == "user"
    ensures r.Some? ==> forall j :: 0 <= j < r.value ==> messages[j].role != "user"
    ensures r.None? ==> forall j :: 0 <= j < |messages| ==> messages[j].role != "user"
    decreases |messages|
  {
    if messages == [] then None
    else if messages[0].role == "user" then Some(0)
    else
      var rest := FirstUserIndex(messages[1..]);
      if rest.Some? then Some(rest.value + 1) else None
  }

  const NewConversationTitle: string := "New Conversation"

  /** `generateConversationTitle`: the first 50 characters of the first user
      message, with "..." when it is longer, or a fixed title when no
      message is from the user. */
  function GenerateConversationTitle(messages: seq<Message>): (title: string)
    ensures FirstUserIndex(messages).None? ==> title == NewConversationTitle
    ensures FirstUserIndex(messages).Some? ==>
              var content := messages[FirstUserIndex(messages).value].content;
              && |title| <= 53
              && StartsWith(title, Take(content, 50))
              && (|content| > 50 ==> title[50..] == "...")
              && (|content| <= 50 ==> title == content)
  {
    var first := FirstUserIndex(messages);
    if first.Some? then Ellipsize(messages[first.value].content, 50) else NewConversationTitle
  }

  /** With any "..." removed, a title derived from a user message is a
      prefix of that message. */
  lemma TitleIsPrefixOfFirstUserMessage(messages: seq<Message>)
    requires FirstUserIndex(messages).Some?
    ensures var content := messages[FirstUserIndex(messages).value].content;
            var title := GenerateConversationTitle(messages);
            StartsWith(content, if |content| > 50 then title[..|title| - 3] else title)
  {
    EllipsizeIsPrefix(messages[FirstUserIndex(messages).value].content, 50);
  }

  // ---------------------------------------------------------------------
  // Records for the vector index

  /** What `saveConversation` indexes: the saved row's id and update time
      (as an ISO string), the caller's user and model, and the messages. */
  datatype IndexRequest = IndexRequest(
    conversationId: string, userId: string, model: string, timestamp: string, messages: seq<Message>)

  datatype RecordMetadata = RecordMetadata(
    conversationId: string, userId: string, role: string, content: string,
    messageIndex: nat, timestamp: string, model: string)

  datatype VectorRecord = VectorRecord(id: string, values: seq<real>, metadata: RecordMetadata)

  /** The text embedded for a message: "<role>: <content>". */
  function MessageText(m: Message): string {
    m.role + ": " + m.content
  }

  function RecordId(conversationId: string, i: nat): string {
    conversationId + "-msg-" + NatToString(i)
  }

  /** Different messages of one conversation get different record ids. */
  lemma RecordIdInjective(conversationId: string, i: nat, j: nat)
    requires i != j
    ensures RecordId(conversationId, i) != RecordId(conversationId, j)
  {
    var prefix := conversationId + "-msg-";
    assert RecordId(conversationId, i)[|prefix|..] == NatToString(i);
    assert RecordId(conversationId, j)[|prefix|..] == NatToString(j);
    NatToStringInjective(i, j);
  }

  function RecordFor(req: IndexRequest, i: nat, values: seq<real>): VectorRecord
    requires i < |req.messages|
  {
    VectorRecord(RecordId(req.conversationId, i), values,
      RecordMetadata(req.conversationId, req.userId, req.messages[i].role, req.messages[i].content,
                     i, req.timestamp, req.model))
  }

  /** The records for the first `n` messages: one per message whose
      embedding succeeded, in message order. */
  function RecordsUpTo(req: IndexRequest, embed: string -> Option<seq<real>>, n: nat): seq<VectorRecord>
    requires n <= |req.messages|
  {
    if n == 0 then []
    else
      RecordsUpTo(req, embed, n - 1)
      + match embed(MessageText(req.messages[n - 1]))
        case Some(values) => [RecordFor(req, n - 1, values)]
        case None => []
  }

  /** A record made for message `i < n` whose embedding succeeded: its id
      and index are that message's position, its values the embedding, its
      role and content the message's, and the conversation, user, update
      time and model those of the save. */
  predicate RecordOfMessage(req: IndexRequest, embed: string -> Option<seq<real>>, n: nat, rec: VectorRecord)
    requires n <= |req.messages|
  {
    var i := rec.metadata.messageIndex;
    && i < n
    && rec.id == RecordId(req.conversationId, i)
    && embed(MessageText(req.messages[i])) == Some(rec.values)
    && rec.metadata.role == req.messages[i].role
    && rec.metadata.content == req.messages[i].content
    && rec.metadata.conversationId == req.conversationId
    && rec.metadata.userId == req.userId
    && rec.metadata.timestamp == req.timestamp
    && rec.metadata.model == req.model
  }

  /** Every record belongs to a message whose embedding succeeded, and the
      records follow the message order. */
  lemma {:induction false} RecordsDescribeTheirMessages(req: IndexRequest, embed: string -> Option<seq<real>>, n: nat)
    requires n <= |req.messages|
    ensures forall k :: 0 <= k < |RecordsUpTo(req, embed, n)| ==>
              RecordOfMessage(req, embed, n, RecordsUpTo(req, embed, n)[k])
    ensures forall a, b :: 0 <= a < b < |RecordsUpTo(req, embed, n)| ==>
              RecordsUpTo(req, embed, n)[a].metadata.messageIndex < RecordsUpTo(req, embed, n)[b].metadata.messageIndex
    decreases n
  {
    if n > 0 {
      RecordsDescribeTheirMessages(req, embed, n - 1);
      var prev := RecordsUpTo(req, embed, n - 1);
      var r := RecordsUpTo(req, embed, n);
      assert forall k :: 0 <= k < |prev| ==> r[k] == prev[k];
      forall k | 0 <= k < |r| ensures RecordOfMessage(req, embed, n, r[k]) {
        if k < |prev| {
          assert RecordOfMessage(req, embed, n - 1, prev[k]);
        }
      }
      forall a, b | 0 <= a < b < |r| ensures r[a].metadata.messageIndex < r[b].metadata.messageIndex {
        assert RecordOfMessage(req, embed, n - 1, prev[a]);
      }
    }
  }

  predicate HasRecordFor(records: seq<VectorRecord>, i: nat) {
    exists k :: 0 <= k < |records| && records[k].metadata.messageIndex == i
  }

  /** No successful message is skipped: each has its record. */
  lemma {:induction false} RecordsCoverEmbeddedMessages(req: IndexRequest, embed: string -> Option<seq<real>>, n: nat)
    requires n <= |req.messages|
    ensures forall i :: 0 <= i < n && embed(MessageText(req.messages[i])).Some? ==>
              HasRecordFor(RecordsUpTo(req, embed, n), i)
    decreases n
  {
    if n > 0 {
      RecordsCoverEmbeddedMessages(req, embed, n - 1);
      var prev := RecordsUpTo(req, embed, n - 1);
      var r := RecordsUpTo(req, embed, n);
      assert r[..|prev|] == prev;
      forall i | 0 <= i < n && embed(MessageText(req.messages[i])).Some?
        ensures HasRecordFor(r, i)
      {
        if i < n - 1 {
          assert HasRecordFor(prev, i);
          var k :| 0 <= k < |prev| && prev[k].metadata.messageIndex == i;
          assert r[k] == prev[k];
        } else {
          var values := embed(MessageText(req.messages[i])).value;
          assert r == prev + [RecordFor(req, i, values)];
          assert r[|prev|].metadata.messageIndex == i;
        }
      }
    }
  }

  /** The ids of the records are pairwise different. */
  lemma RecordIdsDistinct(req: IndexRequest, embed: string -> Option<seq<real>>)
    ensures var r := RecordsUpTo(req, embed, |req.messages|);
            forall a, b :: 0 <= a < b < |r| ==> r[a].id != r[b].id
  {
    var r := RecordsUpTo(req, embed, |req.messages|);
    RecordsDescribeTheirMessages(req, embed, |req.messages|);
    forall a, b | 0 <= a < b < |r| ensures r[a].id != r[b].id {
      assert RecordOfMessage(req, embed, |req.messages|, r[a]) && RecordOfMessage(req, embed, |req.messages|, r[b]);
      RecordIdInjective(req.conversationId, r[a].metadata.messageIndex, r[b].metadata.messageIndex);
    }
  }

  /** The indexed `for` loop of `saveConversation`. */
  method BuildVectorRecords(req: IndexRequest, embed: string -> Option<seq<real>>)
    returns (vectors: seq<VectorRecord>)
    ensures vectors == RecordsUpTo(req, embed, |req.messages|)
  {
    vectors := [];
    var i := 0;
    while i < |req.messages|
      invariant 0 <= i <= |req.messages|
      invariant vectors == RecordsUpTo(req, embed, i)
    {
      var message := req.messages[i];
      var embedding := embed(MessageText(message));
      if embedding.Some? {
        vectors := vectors + [VectorRecord(RecordId(req.conversationId, i), embedding.value,
          RecordMetadata(req.conversationId, req.userId, message.role, message.content,
                         i, req.timestamp, req.model))];
      }
      i := i + 1;
    }
  }

  /** The indexing step of `saveConversation`: with a vector index the
      records are built and sent, in one upsert, only when there is at least
      one; without an index nothing is built or sent. */
  method IndexConversation(indexAvailable: bool, req: IndexRequest, embed: string -> Option<seq<real>>)
    returns (vectors: seq<VectorRecord>, upsert: bool)
    ensures vectors == if indexAvailable then RecordsUpTo(req, embed, |req.messages|) else []
    ensures upsert <==> indexAvailable && |vectors| > 0
  {
    vectors := [];
    upsert := false;
    if indexAvailable {
      vectors := BuildVectorRecords(req, embed);
      upsert := |vectors| > 0;
    }
  }

  // ---------------------------------------------------------------------
  // Search results

  datatype MatchMetadata = MatchMetadata(
    conversationId: Option<string>, role: string, content: string, messageIndex: int, timestamp: string)

  /** A match returned by the vector index. */
  datatype VectorMatch = VectorMatch(score: Option<real>, metadata: Option<MatchMetadata>)

  datatype SearchMatch = SearchMatch(score: real, role: string, content: string, messageIndex: int, timestamp: string)

  /** One conversation of a search answer. */
  datatype ConversationHit = ConversationHit(conversationId: string, matches: seq<SearchMatch>, maxScore: real)

  /** A match is used when it has metadata with a non-empty conversation id. */
  predicate Kept(m: VectorMatch) {
    m.metadata.Some? && TruthyString(m.metadata.value.conversationId)
  }

  function ConversationOf(m: VectorMatch): string
    requires Kept(m)
  {
    m.metadata.value.conversationId.value
  }

  /** `match.score || 0`. */
  function ScoreOf(m: VectorMatch): real {
    if m.score.Some? then m.score.value else 0.0
  }

  function ToSearchMatch(m: VectorMatch): SearchMatch
    requires m.metadata.Some?
  {
    SearchMatch(ScoreOf(m), m.metadata.value.role, m.metadata.value.content,
                m.metadata.value.messageIndex, m.metadata.value.timestamp)
  }

  /** `Math.max`. */
  function Max(a: real, b: real): (r: real)
    ensures r >= a && r >= b && (r == a || r == b)
  {
    if a >= b then a else b
  }

  /** The conversations of the used matches, each once, in the order of
      their first match (the insertion order of the `Map`). */
  function ConversationIds(ms: seq<VectorMatch>): seq<string>
    decreases |ms|
  {
    if ms == [] then []
    else
      var ids := ConversationIds(ms[..|ms| - 1]);
      var m := ms[|ms| - 1];
      if Kept(m) && ConversationOf(m) !in ids then ids + [ConversationOf(m)] else ids
  }

  /** The used matches of conversation `id`, in arrival order. */
  function MatchesFor(ms: seq<VectorMatch>, id: string): seq<SearchMatch>
    decreases |ms|
  {
    if ms == [] then []
    else
      var m := ms[|ms| - 1];
      MatchesFor(ms[..|ms| - 1], id) + if Kept(m) && ConversationOf(m) == id then [ToSearchMatch(m)] else []
  }

  /** The running `Math.max` of the scores of conversation `id`, from 0. */
  function MaxScoreFor(ms: seq<VectorMatch>, id: string): real
    decreases |ms|
  {
    if ms == [] then 0.0
    else
      var m := ms[|ms| - 1];
      var prev := MaxScoreFor(ms[..|ms| - 1], id);
      if Kept(m) && ConversationOf(m) == id then Max(prev, ScoreOf(m)) else prev
  }

  function Group(ms: seq<VectorMatch>, id: string): ConversationHit {
    ConversationHit(id, MatchesFor(ms, id), MaxScoreFor(ms, id))
  }

  function Groups(ms: seq<VectorMatch>): (r: seq<ConversationHit>)
    ensures |r| == |ConversationIds(ms)|
    ensures forall i :: 0 <= i < |r| ==> r[i] == Group(ms, ConversationIds(ms)[i])
  {
    var ids := ConversationIds(ms);
    seq(|ids|, i requires 0 <= i < |ids| => Group(ms, ids[i]))
  }

  function MaxScores(hits: seq<ConversationHit>): (r: seq<real>)
    ensures |r| == |hits|
    ensures forall i :: 0 <= i < |hits| ==> r[i] == hits[i].maxScore
  {
    seq(|hits|, i requires 0 <= i < |hits| => hits[i].maxScore)
  }

  /** The vector-search answer: the groups by descending `maxScore`, groups
      of equal score in the order their conversations first appeared. */
  function SearchHits(ms: seq<VectorMatch>): (r: seq<ConversationHit>)
    ensures |r| == |Groups(ms)|
    ensures multiset(r) == multiset(Groups(ms))
    ensures forall k :: 0 <= k < |r| ==> r[k] == Groups(ms)[Order(MaxScores(Groups(ms)))[k]]
  {
    SortByKeyDescending(Groups(ms), MaxScores(Groups(ms)))
  }

  lemma SearchHitsSorted(ms: seq<VectorMatch>)
    ensures var r := SearchHits(ms);
            forall a, b :: 0 <= a < b < |r| ==> r[a].maxScore >= r[b].maxScore
    ensures var r := SearchHits(ms);
            var order := Order(MaxScores(Groups(ms)));
            forall a, b :: 0 <= a < b < |r| && r[a].maxScore == r[b].maxScore ==> order[a] < order[b]
  {
    var g := Groups(ms);
    var r := SearchHits(ms);
    assert r == SortByKeyDescending(g, MaxScores(g));
  }

  predicate Distinct(ids: seq<string>) {
    forall a, b :: 0 <= a < b < |ids| ==> ids[a] != ids[b]
  }

  /** Each conversation appears once, and exactly the conversations of the
      used matches appear. */
  lemma {:induction false} ConversationIdsExact(ms: seq<VectorMatch>)
    ensures Distinct(ConversationIds(ms))
    ensures forall j :: 0 <= j < |ms| && Kept(ms[j]) ==> ConversationOf(ms[j]) in ConversationIds(ms)
    ensures forall id :: id in ConversationIds(ms) ==> MatchesFor(ms, id) != []
    decreases |ms|
  {
    if ms != [] {
      var init := ms[..|ms| - 1];
      var m := ms[|ms| - 1];
      ConversationIdsExact(init);
      assert forall j :: 0 <= j < |init| ==> init[j] == ms[j];
      var before := ConversationIds(init);
      var ids := ConversationIds(ms);
      if Kept(m) && ConversationOf(m) !in before {
        assert ids == before + [ConversationOf(m)];
        forall a, b | 0 <= a < b < |ids| ensures ids[a] != ids[b] {
          if b == |ids| - 1 {
            assert ids[a] == before[a];
          } else {
            assert ids[a] == before[a] && ids[b] == before[b];
          }
        }
      }
      forall id | id in ids ensures MatchesFor(ms, id) != [] {
        if id in before {
          assert MatchesFor(init, id) != [];
        }
      }
    }
  }

  /** A conversation without used matches has an empty group. */
  lemma {:induction false} UnseenConversation(ms: seq<VectorMatch>, id: string)
    requires id !in ConversationIds(ms)
    ensures MatchesFor(ms, id) == [] && MaxScoreFor(ms, id) == 0.0
    decreases |ms|
  {
    if ms != [] {
      UnseenConversation(ms[..|ms| - 1], id);
    }
  }

  /** `maxScore` is the largest of 0 and the scores of the group's matches. */
  predicate MaxIsBest(h: ConversationHit) {
    && h.maxScore >= 0.0
    && (forall k :: 0 <= k < |h.matches| ==> h.matches[k].score <= h.maxScore)
    && (h.maxScore == 0.0 || exists k :: 0 <= k < |h.matches| && h.matches[k].score == h.maxScore)
  }

  lemma {:induction false} MaxScoreIsBest(ms: seq<VectorMatch>, id: string)
    ensures MaxIsBest(Group(ms, id))
    decreases |ms|
  {
    if ms != [] {
      var init := ms[..|ms| - 1];
      var m := ms[|ms| - 1];
      MaxScoreIsBest(init, id);
      if !(Kept(m) && ConversationOf(m) == id) {
        assert Group(ms, id) == Group(init, id);
      } else {
        var prev := MatchesFor(init, id);
        var now := MatchesFor(ms, id);
        assert now == prev + [ToSearchMatch(m)];
        assert forall k :: 0 <= k < |prev| ==> now[k] == prev[k];
        if MaxScoreFor(ms, id) != 0.0 {
          if MaxScoreFor(ms, id) == ScoreOf(m) {
            assert now[|now| - 1].score == MaxScoreFor(ms, id);
          } else {
            var k :| 0 <= k < |prev| && prev[k].score == MaxScoreFor(init, id);
            assert now[k].score == MaxScoreFor(ms, id);
          }
        }
      }
    }
  }

  /** Every group of the vector-search answer is well formed. */
  lemma SearchHitsWellFormed(ms: seq<VectorMatch>)
    ensures forall h :: h in SearchHits(ms) ==> MaxIsBest(h)
  {
    var g := Groups(ms);
    forall h | h in SearchHits(ms) ensures MaxIsBest(h) {
      assert h in multiset(g);
      var i :| 0 <= i < |g| && g[i] == h;
      MaxScoreIsBest(ms, ConversationIds(ms)[i]);
    }
  }

  /** The `Map` of the grouping loop after the matches `done`: keyed by the
      conversations seen so far, in `order`, each holding its group. */
  ghost predicate Indexes(byId: map<string, ConversationHit>, order: seq<string>, done: seq<VectorMatch>) {
    && order == ConversationIds(done)
    && byId.Keys == set id | id in order
    && forall id :: id in byId ==> byId[id] == Group(done, id)
  }

  /** One turn of the grouping loop on the `Map`. */
  function Absorb(byId: map<string, ConversationHit>, m: VectorMatch): map<string, ConversationHit> {
    if Kept(m) then
      var id := ConversationOf(m);
      var conv := if id in byId then byId[id] else ConversationHit(id, [], 0.0);
      byId[id := conv.(matches := conv.matches + [ToSearchMatch(m)], maxScore := Max(conv.maxScore, ScoreOf(m)))]
    else byId
  }

  /** One turn of the grouping loop on the insertion order. */
  function Enter(order: seq<string>, byId: map<string, ConversationHit>, m: VectorMatch): seq<string> {
    if Kept(m) && ConversationOf(m) !in byId then order + [ConversationOf(m)] else order
  }

  /** A turn of the loop keeps the `Map` in step with the matches read. */
  lemma AbsorbIndexes(byId: map<string, ConversationHit>, order: seq<string>, done: seq<VectorMatch>, m: VectorMatch)
    requires Indexes(byId, order, done)
    ensures Indexes(Absorb(byId, m), Enter(order, byId, m), done + [m])
  {
    var all := done + [m];
    assert all[..|all| - 1] == done;
    assert all[|all| - 1] == m;
    var next := Absorb(byId, m);
    var nextOrder := Enter(order, byId, m);
    assert nextOrder == ConversationIds(all);
    if Kept(m) {
      var id := ConversationOf(m);
      if id !in byId {
        UnseenConversation(done, id);
      }
      forall k | k in next ensures next[k] == Group(all, k) {
        if k != id {
          assert k in byId;
        }
      }
    }
    assert next.Keys == set k | k in nextOrder;
  }

  /** The grouping loop of `searchConversations`: a `Map` from conversation
      id to its group, filled in match order, then sorted by `maxScore`. */
  method GroupMatches(ms: seq<VectorMatch>) returns (hits: seq<ConversationHit>)
    ensures hits == SearchHits(ms)
  {
    var byId: map<string, ConversationHit> := map[];
    var order: seq<string> := [];
    var i := 0;
    while i < |ms|
      invariant 0 <= i <= |ms|
      invariant Indexes(byId, order, ms[..i])
    {
      var m := ms[i];
      ghost var before, orderBefore := byId, order;
      if m.metadata.Some? && TruthyString(m.metadata.value.conversationId) {
        var convId := m.metadata.value.conversationId.value;
        if convId !in byId {
          byId := byId[convId := ConversationHit(convId, [], 0.0)];
          order := order + [convId];
        }
        var conv := byId[convId];
        var score := if m.score.Some? then m.score.value else 0.0;
        var entry := SearchMatch(score, m.metadata.value.role, m.metadata.value.content,
                                 m.metadata.value.messageIndex, m.metadata.value.timestamp);
        byId := byId[convId := conv.(matches := conv.matches + [entry], maxScore := Max(conv.maxScore, score))];
      }
      AbsorbIndexes(before, orderBefore, ms[..i], m);
      assert byId == Absorb(before, m) && order == Enter(orderBefore, before, m);
      assert ms[..i + 1] == ms[..i] + [m];
      i := i + 1;
    }
    assert ms[..|ms|] == ms;
    var values := seq(|order|, k requires 0 <= k < |order| => byId[order[k]]);
    assert values == Groups(ms);
    hits := SortByKeyDescending(values, MaxScores(values));
  }

  /** A row of the plain-text fallback search. */
  datatype StoredConversation = StoredConversation(id: string, title: string, updatedAt: string)

  /** The fallback answer for one row: a single match with score 0.8, role
      "system", the title as content and message index 0. */
  function FallbackHit(c: StoredConversation): (h: ConversationHit)
    ensures h.conversationId == c.id && h.maxScore == 0.8
    ensures h.matches == [SearchMatch(0.8, "system", c.title, 0, c.updatedAt)]
    ensures MaxIsBest(h)
  {
    assert [SearchMatch(0.8, "system", c.title, 0, c.updatedAt)][0].score == 0.8;
    ConversationHit(c.id, [SearchMatch(0.8, "system", c.title, 0, c.updatedAt)], 0.8)
  }

  /** The fallback answer keeps the rows' order, one hit per row. */
  function FallbackHits(rows: seq<StoredConversation>): (r: seq<ConversationHit>)
    ensures |r| == |rows|
    ensures forall i :: 0 <= i < |rows| ==> r[i] == FallbackHit(rows[i])
  {
    seq(|rows|, i requires 0 <= i < |rows| => FallbackHit(rows[i]))
  }

  /** `searchConversations` once its service calls have answered: without a
      vector index, the text-search rows mapped to hits; with one, the index
      matches (`searchResults.matches || []`) grouped. */
  method SearchConversations(indexAvailable: bool, textRows: seq<StoredConversation>,
                             indexMatches: Option<seq<VectorMatch>>)
    returns (hits: seq<ConversationHit>)
    ensures !indexAvailable ==> hits == FallbackHits(textRows)
    ensures indexAvailable ==> hits == SearchHits(if indexMatches.Some? then indexMatches.value else [])
    ensures forall h :: h in hits ==> MaxIsBest(h)
  {
    if !indexAvailable {
      hits := FallbackHits(textRows);
    } else {
      var ms := if indexMatches.Some? then indexMatches.value else [];
      hits := GroupMatches(ms);
      SearchHitsWellFormed(ms);
    }
  }
}
