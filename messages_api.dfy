/** The web client's message endpoints: the list URL with its optional
    `limit` and `offset` query parameters, and the send and delete paths. */
module MessagesApi {
  import opened Wrappers
  import opened JsStrings
  import opened SharedConstants

  /** JavaScript truthiness of an optional integer: `undefined` and 0 are
      false. */
  predicate NumberTruthy(n: Option<int>) {
    n.Some? && n.value != 0
  }

  /** `URLSearchParams.toString()`: `name=value` pairs joined by '&'. The
      names and values here are letters, digits and '-', which the form
      encoding leaves unchanged. */
  function QueryString(params: seq<(string, string)>): string {
    if params == [] then ""
    else if |params| == 1 then params[0].0 + "=" + params[0].1
    else params[0].0 + "=" + params[0].1 + "&" + QueryString(params[1..])
  }

  /** Two pairs render as `a=x&b=y`. */
  lemma QueryStringPair(a: string, x: string, b: string, y: string)
    ensures QueryString([(a, x), (b, y)]) == a + "=" + x + "&" + b + "=" + y
  {
    assert [(a, x), (b, y)][1..] == [(b, y)];
  }

  /** The query `getMessages` sends, case by case: a pair only for a set
      parameter, `limit` before `offset`. */
  function MessagesQuery(limit: Option<int>, offset: Option<int>): string {
    if NumberTruthy(limit) && NumberTruthy(offset) then
      "limit=" + IntToString(limit.value) + "&offset=" + IntToString(offset.value)
    else if NumberTruthy(limit) then "limit=" + IntToString(limit.value)
    else if NumberTruthy(offset) then "offset=" + IntToString(offset.value)
    else ""
  }

  /** The URL `getMessages` requests: the list path, then '?' and the query
      only when the query is not empty. */
  function MessagesUrl(roomId: string, limit: Option<int>, offset: Option<int>): string {
    var query := MessagesQuery(limit, offset);
    MessagesList(roomId) + (if query != "" then "?" + query else "")
  }

  /** The `URLSearchParams` `getMessages` fills: the parameters appended
      one by one to a mutable list, then rendered. */
  method BuildQuery(limit: Option<int>, offset: Option<int>) returns (query: string)
    ensures query == MessagesQuery(limit, offset)
  {
    var params: seq<(string, string)> := [];
    if NumberTruthy(limit) {
      params := params + [("limit", IntToString(limit.value))];
    }
    if NumberTruthy(offset) {
      params := params + [("offset", IntToString(offset.value))];
    }
    query := QueryString(params);
    if NumberTruthy(limit) && NumberTruthy(offset) {
      QueryStringPair("limit", IntToString(limit.value), "offset", IntToString(offset.value));
    }
  }

  /** `getMessages(roomId, limit, offset)`: the list path, with '?' and the
      query appended when the query is not empty. */
  method GetMessagesUrl(roomId: string, limit: Option<int>, offset: Option<int>) returns (url: string)
    ensures url == MessagesUrl(roomId, limit, offset)
  {
    var query := BuildQuery(limit, offset);
    url := MessagesList(roomId) + (if query != "" then "?" + query else "");
  }

  /** A rendered integer holds no '?'. */
  lemma NoQueryMarkInNumber(n: int)
    ensures '?' !in IntToString(n)
  {
    var s := IntToString(n);
    forall i | 0 <= i < |s|
      ensures s[i] != '?'
    {
    }
  }

  /** With a room id free of '?', the URL has a query exactly when `limit`
      or `offset` is truthy, and everything before the '?' is the list path. */
  lemma QueryMarkIffParameters(roomId: string, limit: Option<int>, offset: Option<int>)
    requires '?' !in roomId
    ensures '?' in MessagesUrl(roomId, limit, offset) <==> NumberTruthy(limit) || NumberTruthy(offset)
    ensures Split(MessagesUrl(roomId, limit, offset), '?')[0] == MessagesList(roomId)
  {
    var list := MessagesList(roomId);
    var query := MessagesQuery(limit, offset);
    assert '?' !in list;
    if NumberTruthy(limit) { NoQueryMarkInNumber(limit.value); }
    if NumberTruthy(offset) { NoQueryMarkInNumber(offset.value); }
    assert '?' !in query;
    if query != "" {
      assert MessagesUrl(roomId, limit, offset) == list + ['?'] + query;
      SplitAfterFirst(list, query, '?');
    } else {
      assert MessagesUrl(roomId, limit, offset) == list;
      SplitWithoutSeparator(list, '?');
    }
  }

  /** `sendMessage(roomId, data)` posts to the list path. */
  function SendMessagePath(roomId: string): (path: string)
    ensures path == MessagesList(roomId)
  {
    MessagesCreate(roomId)
  }

  /** `deleteMessage(roomId, messageId)` targets the list path, '/' and the id. */
  function DeleteMessagePath(roomId: string, messageId: string): (path: string)
    ensures path == MessagesList(roomId) + "/" + messageId
  {
    MessagesDelete(roomId, messageId)
  }
}
