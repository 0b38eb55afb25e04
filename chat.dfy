/** The chat router: token check, sending a message to the text generator, reading
    and clearing a user's history. The two process-wide dictionaries of the
    source, keyed by the Firebase uid, are the fields of `ChatStore`; the
    generator's answer and the clock readings are parameters. */
module Chat {
  import opened Outcomes
  import Text
  import Auth

  /** The key used for a verified token that carries no uid. */
  const Anonymous: string := "anonymous"
  /** Default `limit` of the history endpoint. */
  const DefaultLimit: int := 50
  const ClearedNotice: string := "聊天歷史已清除"

  datatype Role = UserRole | ModelRole

  /** One entry of a conversation buffer: `{"role": ..., "parts": [...]}`. */
  datatype Turn = Turn(role: Role, parts: seq<string>)

  /** One entry of a chat history; `createdAt` is the clock reading at storage. */
  datatype Record = Record(userMessage: string, aiResponse: string, createdAt: int)

  datatype HistoryItem = HistoryItem(id: int, userMessage: string, aiResponse: string, createdAt: int)

  datatype ChatResponse = ChatResponse(userMessage: string, aiResponse: string, timestamp: int)

  /** What the generator does with a message: answers with a text, or raises. */
  datatype Generation = Replied(text: string) | Failed

  /** `verify_token_simple`: Firebase only, no local-token fallback. */
  function VerifyTokenSimple(fb: Auth.FirebaseVerdict): (r: Result<string>)
    ensures r.Err? <==> !fb.Verified?
    ensures fb.NotConfigured? ==> r == Err(FirebaseUnconfigured) && Status(r.reason) == 500
    ensures fb.Rejected? ==> r == Err(FirebaseRejected) && Status(r.reason) == 401
    ensures fb.Verified? && fb.uid.Some? ==> r == Ok(fb.uid.value)
    ensures fb.Verified? && fb.uid.None? ==> r == Ok(Anonymous)
  {
    match fb
    case NotConfigured => Err(FirebaseUnconfigured)
    case Rejected => Err(FirebaseRejected)
    case Verified(uid, _, _) => Ok(if uid.Some? then uid.value else Anonymous)
  }

  /** The entries stored under `u`, none if the key is absent. */
  function Entries<T>(m: map<string, seq<T>>, u: string): seq<T>
  {
    if u in m then m[u] else []
  }

  /** `m[u]` extended by `xs`, creating the key if absent. */
  function Appended<T>(m: map<string, seq<T>>, u: string, xs: seq<T>): (m': map<string, seq<T>>)
    ensures m'.Keys == m.Keys + {u}
    ensures m'[u] == Entries(m, u) + xs
    ensures forall v :: v in m && v != u ==> m'[v] == m[v]
  {
    m[u := Entries(m, u) + xs]
  }

  /** `m[u] = []` if `u` is a key of `m`; otherwise `m` itself. */
  function Emptied<T>(m: map<string, seq<T>>, u: string): (m': map<string, seq<T>>)
    ensures m'.Keys == m.Keys
    ensures Entries(m', u) == []
    ensures forall v :: v in m && v != u ==> m'[v] == m[v]
  {
    if u in m then m[u := []] else m
  }

  /** Clearing twice is clearing once. */
  lemma EmptiedIdempotent<T>(m: map<string, seq<T>>, u: string)
    ensures Emptied(Emptied(m, u), u) == Emptied(m, u)
  {
  }

  /** The two turns one exchange adds to a conversation buffer. */
  function Exchange(r: Record): seq<Turn>
  {
    [Turn(UserRole, [r.userMessage]), Turn(ModelRole, [r.aiResponse])]
  }

  /** The conversation buffer that a sequence of exchanges builds. */
  function Turns(rs: seq<Record>): (ts: seq<Turn>)
    ensures |ts| == 2 * |rs|
  {
    if rs == [] then [] else Turns(rs[..|rs| - 1]) + Exchange(rs[|rs| - 1])
  }

  lemma TurnsAppend(rs: seq<Record>, r: Record)
    ensures Turns(rs + [r]) == Turns(rs) + Exchange(r)
  {
    assert (rs + [r])[..|rs|] == rs;
  }

  /** A buffer alternates user and model turns: turn `2k` holds the `k`-th
      message, turn `2k + 1` the reply to it. */
  lemma {:induction false} TurnsAlternate(rs: seq<Record>, k: nat)
    requires k < |rs|
    ensures Turns(rs)[2 * k] == Turn(UserRole, [rs[k].userMessage])
    ensures Turns(rs)[2 * k + 1] == Turn(ModelRole, [rs[k].aiResponse])
  {
    if k < |rs| - 1 {
      TurnsAlternate(rs[..|rs| - 1], k);
    }
  }

  /** The buffers are a cache derived from the histories: every history key has a
      buffer, and each buffer holds exactly the turns of its history. */
  ghost predicate Consistent(conversations: map<string, seq<Turn>>, histories: map<string, seq<Record>>)
  {
    && histories.Keys <= conversations.Keys
    && forall u {:trigger Mirrors(conversations, histories, u)} :: u in conversations ==> Mirrors(conversations, histories, u)
  }

  /** The buffer of `u` holds exactly the turns of `u`'s history. */
  ghost predicate Mirrors(conversations: map<string, seq<Turn>>, histories: map<string, seq<Record>>, u: string)
    requires u in conversations
  {
    conversations[u] == Turns(Entries(histories, u))
  }

  /** A failed exchange leaves at most an empty buffer behind. */
  lemma KeepConsistentOnTouch(conversations: map<string, seq<Turn>>, histories: map<string, seq<Record>>, u: string)
    requires Consistent(conversations, histories) && u !in conversations
    ensures Consistent(conversations[u := []], histories)
  {
    var touched := conversations[u := []];
    forall v | v in touched
      ensures Mirrors(touched, histories, v)
    {
      if v != u {
        assert Mirrors(conversations, histories, v);
      }
    }
  }

  /** A successful exchange extends the buffer by exactly the turns of its record. */
  lemma KeepConsistentOnExchange(conversations: map<string, seq<Turn>>, histories: map<string, seq<Record>>, u: string, r: Record)
    requires Consistent(conversations, histories) && u in conversations
    ensures Consistent(Appended(conversations, u, Exchange(r)), Appended(histories, u, [r]))
  {
    var grown := Appended(conversations, u, Exchange(r));
    var recorded := Appended(histories, u, [r]);
    forall v | v in grown
      ensures Mirrors(grown, recorded, v)
    {
      assert Mirrors(conversations, histories, v);
      if v == u {
        TurnsAppend(Entries(histories, u), r);
      } else {
        assert Entries(recorded, v) == Entries(histories, v);
      }
    }
  }

  /** Creating an absent buffer before appending to it makes no difference. */
  lemma AppendedAfterTouch<T>(m: map<string, seq<T>>, u: string, xs: seq<T>)
    ensures Appended(m[u := Entries(m, u)], u, xs) == Appended(m, u, xs)
  {
  }

  /** Clearing the buffer and the history of one user together keeps them in step. */
  lemma KeepConsistentOnClear(conversations: map<string, seq<Turn>>, histories: map<string, seq<Record>>, u: string)
    requires Consistent(conversations, histories)
    ensures Consistent(Emptied(conversations, u), Emptied(histories, u))
  {
    var conversations' := Emptied(conversations, u);
    var histories' := Emptied(histories, u);
    forall v | v in conversations'
      ensures Mirrors(conversations', histories', v)
    {
      if v != u {
        assert Mirrors(conversations, histories, v);
        assert Entries(histories', v) == Entries(histories, v);
      }
    }
  }

  /** Python's `s[start:]`: a negative start counts from the end; both are clamped. */
  function SliceFrom<T>(s: seq<T>, start: int): seq<T>
  {
    if start < 0 then
      (if |s| + start < 0 then s else s[|s| + start..])
    else
      (if start > |s| then [] else s[start..])
  }

  /** `s[-limit:]`: the last `limit` entries for a positive limit, all of them for
      zero, and all but the first `-limit` for a negative limit. */
  function LastEntries<T>(s: seq<T>, limit: int): (r: seq<T>)
    ensures limit > 0 && limit <= |s| ==> r == s[|s| - limit..]
    ensures limit > |s| ==> r == s
    ensures limit == 0 ==> r == s
    ensures limit < 0 && -limit <= |s| ==> r == s[-limit..]
    ensures limit < 0 && -limit > |s| ==> r == []
    ensures |r| == if limit > 0 && limit < |s| then limit else if limit >= 0 then |s| else if -limit >= |s| then 0 else |s| + limit
    ensures r == s[|s| - |r|..]
  {
    SliceFrom(s, -limit)
  }

  /** The list `get_chat_history` returns for user `u`. */
  function History(histories: map<string, seq<Record>>, u: string, limit: int): (items: seq<HistoryItem>)
    ensures u !in histories ==> items == []
    ensures |items| <= |Entries(histories, u)|
    ensures var rs := Entries(histories, u);
      forall i :: 0 <= i < |items| ==>
        items[i] == HistoryItem(i, rs[|rs| - |items| + i].userMessage, rs[|rs| - |items| + i].aiResponse, rs[|rs| - |items| + i].createdAt)
    ensures limit > 0 ==> |items| == if limit < |Entries(histories, u)| then limit else |Entries(histories, u)|
    ensures limit == 0 ==> |items| == |Entries(histories, u)|
    ensures limit < 0 ==> |items| == if -limit >= |Entries(histories, u)| then 0 else |Entries(histories, u)| + limit
  {
    if u !in histories then []
    else
      var records := LastEntries(histories[u], limit);
      seq(|records|, i requires 0 <= i < |records| =>
        HistoryItem(i, records[i].userMessage, records[i].aiResponse, records[i].createdAt))
  }

  /** The latest exchange comes last: after a record is appended, a history
      request with a positive limit ends with it. */
  lemma LatestLast(histories: map<string, seq<Record>>, u: string, r: Record, limit: int)
    requires limit > 0
    ensures var items := History(Appended(histories, u, [r]), u, limit);
      |items| > 0 && items[|items| - 1].userMessage == r.userMessage
      && items[|items| - 1].aiResponse == r.aiResponse && items[|items| - 1].createdAt == r.createdAt
  {
    var h := Appended(histories, u, [r]);
    var items := History(h, u, limit);
    assert |Entries(h, u)| > 0;
    assert |items| > 0;
  }

  /** A request without `limit` returns the last fifty exchanges, or all of them
      when there are fewer. */
  lemma DefaultRequest(histories: map<string, seq<Record>>, u: string)
    ensures var n := |Entries(histories, u)|;
      |History(histories, u, DefaultLimit)| == if n < 50 then n else 50
  {
  }

  /** History ordering: exchanges A, B, C stored in that order for a user with no
      earlier records come back as A, B, C with ids 0, 1, 2. */
  lemma Chronological(histories: map<string, seq<Record>>, u: string, a: Record, b: Record, c: Record, limit: int)
    requires Entries(histories, u) == []
    requires limit == 0 || limit >= 3
    ensures History(Appended(Appended(Appended(histories, u, [a]), u, [b]), u, [c]), u, limit)
      == [HistoryItem(0, a.userMessage, a.aiResponse, a.createdAt),
          HistoryItem(1, b.userMessage, b.aiResponse, b.createdAt),
          HistoryItem(2, c.userMessage, c.aiResponse, c.createdAt)]
  {
    var h := Appended(Appended(Appended(histories, u, [a]), u, [b]), u, [c]);
    assert Entries(h, u) == [a, b, c];
  }

  /** The process-wide chat state of the source. */
  class ChatStore {
    /** Whether a Gemini API key was configured at start-up. */
    const generatorConfigured: bool
    var conversations: map<string, seq<Turn>>
    var histories: map<string, seq<Record>>

    ghost predicate Valid()
      reads this
    {
      Consistent(conversations, histories)
    }

    constructor (generatorConfigured: bool)
      ensures Valid()
      ensures this.generatorConfigured == generatorConfigured
      ensures conversations == map[] && histories == map[]
    {
      this.generatorConfigured := generatorConfigured;
      conversations := map[];
      histories := map[];
    }

    /** `send_message`, after the token check of its dependency. */
    method SendMessage(fb: Auth.FirebaseVerdict, message: string, reply: Generation, createdAt: int, sentAt: int)
      returns (r: Result<ChatResponse>)
      requires Valid()
      modifies this
      ensures Valid()
      ensures VerifyTokenSimple(fb).Err? ==>
        r == Err(VerifyTokenSimple(fb).reason) && conversations == old(conversations) && histories == old(histories)
      ensures VerifyTokenSimple(fb).Ok? && !generatorConfigured ==>
        r == Err(GeneratorUnconfigured) && conversations == old(conversations) && histories == old(histories)
      ensures VerifyTokenSimple(fb).Ok? && generatorConfigured && Text.Strip(message) == [] ==>
        r == Err(EmptyMessage) && conversations == old(conversations) && histories == old(histories)
      ensures VerifyTokenSimple(fb).Ok? && generatorConfigured && Text.Strip(message) != [] && reply.Failed? ==>
        var u := VerifyTokenSimple(fb).value;
        && r == Err(GenerationFailed)
        && conversations == old(conversations)[u := Entries(old(conversations), u)]
        && histories == old(histories)
      ensures VerifyTokenSimple(fb).Ok? && generatorConfigured && Text.Strip(message) != [] && reply.Replied? ==>
        var u := VerifyTokenSimple(fb).value;
        var record := Record(message, reply.text, createdAt);
        && r == Ok(ChatResponse(message, reply.text, sentAt))
        && conversations == Appended(old(conversations), u, Exchange(record))
        && histories == Appended(old(histories), u, [record])
    {
      var auth := VerifyTokenSimple(fb);
      if auth.Err? {
        return Err(auth.reason);
      }
      var u := auth.value;
      if !generatorConfigured {
        return Err(GeneratorUnconfigured);
      }
      if Text.Strip(message) == [] {
        return Err(EmptyMessage);
      }
      EnsureBuffer(u);
      if reply.Failed? {
        return Err(GenerationFailed);
      }
      var record := Record(message, reply.text, createdAt);
      AppendedAfterTouch(old(conversations), u, Exchange(record));
      AppendExchange(u, record);
      r := Ok(ChatResponse(message, reply.text, sentAt));
    }

    /** `conversation_histories[user_id] = []` when the key is absent. */
    method EnsureBuffer(u: string)
      requires Valid()
      modifies this
      ensures Valid() && u in conversations
      ensures conversations == old(conversations)[u := Entries(old(conversations), u)]
      ensures histories == old(histories)
    {
      if u !in conversations {
        KeepConsistentOnTouch(conversations, histories, u);
        conversations := conversations[u := []];
      }
    }

    /** The two buffer appends and the history append of a successful exchange. */
    method AppendExchange(u: string, record: Record)
      requires Valid() && u in conversations
      modifies this
      ensures Valid()
      ensures conversations == Appended(old(conversations), u, Exchange(record))
      ensures histories == Appended(old(histories), u, [record])
    {
      KeepConsistentOnExchange(conversations, histories, u, record);
      ghost var buffers, records := conversations, histories;
      conversations := conversations[u := conversations[u] + [Turn(UserRole, [record.userMessage])]];
      conversations := conversations[u := conversations[u] + [Turn(ModelRole, [record.aiResponse])]];
      assert conversations[u] == Entries(buffers, u) + Exchange(record);
      assert conversations == Appended(buffers, u, Exchange(record));
      if u !in histories {
        histories := histories[u := []];
      }
      histories := histories[u := histories[u] + [record]];
      assert histories == Appended(records, u, [record]);
    }

    /** `get_chat_history`, after the token check of its dependency. */
    function GetChatHistory(fb: Auth.FirebaseVerdict, limit: int): (r: Result<seq<HistoryItem>>)
      reads this
      ensures r.Err? <==> VerifyTokenSimple(fb).Err?
      ensures r.Ok? ==> r.value == History(histories, VerifyTokenSimple(fb).value, limit)
    {
      var auth := VerifyTokenSimple(fb);
      if auth.Err? then Err(auth.reason) else Ok(History(histories, auth.value, limit))
    }

    /** `clear_chat_history`: empties both lists of the caller only. */
    method ClearChatHistory(fb: Auth.FirebaseVerdict) returns (r: Result<string>)
      requires Valid()
      modifies this
      ensures Valid()
      ensures VerifyTokenSimple(fb).Err? ==>
        r == Err(VerifyTokenSimple(fb).reason) && conversations == old(conversations) && histories == old(histories)
      ensures VerifyTokenSimple(fb).Ok? ==>
        var u := VerifyTokenSimple(fb).value;
        && r == Ok(ClearedNotice)
        && conversations == Emptied(old(conversations), u)
        && histories == Emptied(old(histories), u)
    {
      var auth := VerifyTokenSimple(fb);
      if auth.Err? {
        return Err(auth.reason);
      }
      var u := auth.value;
      KeepConsistentOnClear(conversations, histories, u);
      if u in conversations {
        conversations := conversations[u := []];
      }
      if u in histories {
        histories := histories[u := []];
      }
      r := Ok(ClearedNotice);
    }
  }
}
