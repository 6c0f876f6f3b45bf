/** The telemetry receivers' message store and the handlers that act on
    it. Both receivers keep two maps from a user to that user's messages,
    `messages` for `/components` and `batchMessages` for
    `/collections/batch`, and update, read and clear them the same way; the
    receiver built for the ordinary acceptance tests does so under a lock
    and answers a read from a copy. */
module TelemetryReceiver {
  import opened Wrappers
  import opened Json
  import opened ReceiverCommon

  /** Which of the two maps a handler works on. */
  datatype Collection = Components | Batch

  /** A handler's answer: 401, 400, 201, the handler's panic (the request
      is dropped and the server goes on), a 200 with no body, or a 200 with
      a JSON list of messages. */
  datatype Reply = Unauthorized | BadRequest | Created | Panicked | Cleared | Listed(messages: seq<Object>)

  /** A user's messages, the empty list for a user with none. */
  function MessagesOf(store: map<string, seq<Object>>, userID: string): (r: seq<Object>)
    ensures userID in store ==> r == store[userID]
    ensures userID !in store ==> r == []
  {
    if userID in store then store[userID] else []
  }

  class Receiver {
    var messages: map<string, seq<Object>>
    var batchMessages: map<string, seq<Object>>
    const userApiKeys: ApiKeys
    const messageLimit: int

    /** The state `main` sets up: both maps empty. */
    constructor(userApiKeys: ApiKeys, messageLimit: int)
      ensures this.userApiKeys == userApiKeys && this.messageLimit == messageLimit
      ensures messages == map[] && batchMessages == map[]
    {
      this.userApiKeys := userApiKeys;
      this.messageLimit := messageLimit;
      messages := map[];
      batchMessages := map[];
    }

    /** The map a collection's handlers work on. */
    function Store(c: Collection): map<string, seq<Object>>
      reads this
    {
      match c
      case Components => messages
      case Batch => batchMessages
    }

    /** `updateMessages`: replace the user's list, an absent user's being
        empty, by the kept list. Only that entry of that map changes; when
        the slice panics nothing does. */
    method UpdateMessages(userID: string, c: Collection, received: seq<Object>) returns (panicked: bool)
      modifies this
      ensures panicked <==> |received| > messageLimit
      ensures panicked ==> messages == old(messages) && batchMessages == old(batchMessages)
      ensures !panicked ==>
        Store(c) == old(Store(c))[userID := UpdatedMessages(MessagesOf(old(Store(c)), userID), received, messageLimit).value]
      ensures c == Components ==> batchMessages == old(batchMessages)
      ensures c == Batch ==> messages == old(messages)
    {
      var store := Store(c);
      var curr := MessagesOf(store, userID);
      var toRemove := |received| + |curr| - messageLimit;
      if toRemove > 0 {
        if toRemove > |curr| {
          return true;
        }
        curr := curr[toRemove..];
      }
      var kept := curr + received;
      assert kept == UpdatedMessages(MessagesOf(store, userID), received, messageLimit).value;
      if c == Components {
        messages := messages[userID := kept];
      } else {
        batchMessages := batchMessages[userID := kept];
      }
      panicked := false;
    }

    /** `postMessageHandler`: authenticate, then store what the reader made
        of the body (`None` when it could not read it). */
    method PostMessages(h: Header, c: Collection, received: Option<seq<Object>>) returns (r: Reply, userID: string)
      modifies this
      ensures r in {Unauthorized, BadRequest, Created, Panicked}
      ensures r == Unauthorized <==> forall u :: u in userApiKeys ==> !Owns(userApiKeys, u, TokenFromHeader(h))
      ensures r != Unauthorized ==> Owns(userApiKeys, userID, TokenFromHeader(h))
      ensures r == BadRequest <==> r != Unauthorized && received.None?
      ensures r == Panicked <==> r != Unauthorized && received.Some? && |received.value| > messageLimit
      ensures r != Created ==> messages == old(messages) && batchMessages == old(batchMessages)
      ensures r == Created ==>
        Store(c) == old(Store(c))[userID := UpdatedMessages(MessagesOf(old(Store(c)), userID), received.value, messageLimit).value]
      ensures c == Components ==> batchMessages == old(batchMessages)
      ensures c == Batch ==> messages == old(messages)
    {
      var authed;
      userID, authed := Authenticated(h, userApiKeys);
      if !authed {
        return Unauthorized, userID;
      }
      if received.None? {
        return BadRequest, userID;
      }
      var panicked := UpdateMessages(userID, c, received.value);
      r := if panicked then Panicked else Created;
    }

    /** `readMessagesForUser` of the audit-mode receiver: the user's list
        when the user has an entry, and `[]` otherwise. */
    method ReadMessagesForUser(h: Header, c: Collection) returns (r: Reply)
      ensures r == Unauthorized <==> forall u :: u in userApiKeys ==> !Owns(userApiKeys, u, TokenFromHeader(h))
      ensures r != Unauthorized ==>
        exists u :: Owns(userApiKeys, u, TokenFromHeader(h)) && r == Listed(MessagesOf(Store(c), u))
    {
      var userID, authed := Authenticated(h, userApiKeys);
      if !authed {
        return Unauthorized;
      }
      var store := Store(c);
      if userID in store {
        r := Listed(store[userID]);
      } else {
        r := Listed([]);
      }
    }

    /** `readMessagesForUser` of the locked receiver: a copy of the user's
        list, and `[]` when the user has no entry or an empty one. It
        answers what the audit-mode rule answers. */
    method ReadMessagesCopy(h: Header, c: Collection) returns (r: Reply)
      ensures r == Unauthorized <==> forall u :: u in userApiKeys ==> !Owns(userApiKeys, u, TokenFromHeader(h))
      ensures r != Unauthorized ==>
        exists u :: Owns(userApiKeys, u, TokenFromHeader(h)) && r == Listed(MessagesOf(Store(c), u))
    {
      var userID, authed := Authenticated(h, userApiKeys);
      if !authed {
        return Unauthorized;
      }
      var store := Store(c);
      var ok := userID in store;
      var userMessages := if ok then store[userID] else [];
      var messagesCopy := seq(|userMessages|, i requires 0 <= i < |userMessages| => userMessages[i]);
      if ok && |messagesCopy| > 0 {
        r := Listed(messagesCopy);
      } else {
        r := Listed([]);
      }
    }

    /** `clearMessages`: delete the user from both maps and nothing else. */
    method ClearMessages(h: Header) returns (r: Reply, userID: string)
      modifies this
      ensures r in {Unauthorized, Cleared}
      ensures r == Unauthorized <==> forall u :: u in userApiKeys ==> !Owns(userApiKeys, u, TokenFromHeader(h))
      ensures r == Unauthorized ==> messages == old(messages) && batchMessages == old(batchMessages)
      ensures r == Cleared ==>
        && Owns(userApiKeys, userID, TokenFromHeader(h))
        && messages == old(messages) - {userID}
        && batchMessages == old(batchMessages) - {userID}
    {
      var authed;
      userID, authed := Authenticated(h, userApiKeys);
      if !authed {
        return Unauthorized, userID;
      }
      messages := messages - {userID};
      batchMessages := batchMessages - {userID};
      r := Cleared;
    }
  }
}
