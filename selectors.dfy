/**
 * Small selectors of lib/utils.ts: the most recent user message
 * (lib/utils.ts:201-204), a document's timestamp by index
 * (lib/utils.ts:206-214) and the server-side id of a UI message
 * (lib/utils.ts:216-224).
 */
module Selectors {
  import opened Wrappers
  import opened Sequences
  import opened ChatTypes

  // ---------------------------------------------------------------------------
  // getMostRecentUserMessage
  // ---------------------------------------------------------------------------

  function UserMessages<A, R>(msgs: seq<CoreMessage<A, R>>): seq<CoreMessage<A, R>>
  {
    Filter(msgs, (m: CoreMessage<A, R>) => m.role == User)
  }

  /**
   * `messages.filter((m) => m.role === "user").at(-1)`: absent exactly when
   * no message has role `user`; otherwise a `user` message of the list with
   * no `user` message after it.
   */
  function MostRecentUserMessage<A, R>(msgs: seq<CoreMessage<A, R>>): (r: Option<CoreMessage<A, R>>)
    ensures r.None? <==> forall i :: 0 <= i < |msgs| ==> msgs[i].role != User
    ensures r.Some? ==>
      exists i :: 0 <= i < |msgs| && msgs[i] == r.value
                  && msgs[i].role == User && forall j :: i < j < |msgs| ==> msgs[j].role != User
  {
    LastUserMessage(msgs);
    var userMessages := UserMessages(msgs);
    if |userMessages| == 0 then None else Some(userMessages[|userMessages| - 1])
  }

  lemma {:induction false} LastUserMessage<A, R>(msgs: seq<CoreMessage<A, R>>)
    ensures |UserMessages(msgs)| == 0 <==> forall i :: 0 <= i < |msgs| ==> msgs[i].role != User
    ensures |UserMessages(msgs)| > 0 ==>
      exists i :: 0 <= i < |msgs| && msgs[i] == UserMessages(msgs)[|UserMessages(msgs)| - 1]
                  && msgs[i].role == User && forall j :: i < j < |msgs| ==> msgs[j].role != User
  {
    if msgs != [] {
      var tail := msgs[1..];
      LastUserMessage(tail);
      var users := UserMessages(msgs);
      if |UserMessages(tail)| > 0 {
        var i :| 0 <= i < |tail| && tail[i] == UserMessages(tail)[|UserMessages(tail)| - 1]
                 && tail[i].role == User && forall j :: i < j < |tail| ==> tail[j].role != User;
        assert users[|users| - 1] == UserMessages(tail)[|UserMessages(tail)| - 1];
        assert msgs[i + 1] == tail[i];
        forall j | i + 1 < j < |msgs| ensures msgs[j].role != User {
          assert msgs[j] == tail[j - 1];
        }
      } else {
        forall j | 0 < j < |msgs| ensures msgs[j].role != User {
          assert msgs[j] == tail[j - 1];
        }
      }
    }
  }

  // ---------------------------------------------------------------------------
  // getDocumentTimestampByIndex
  // ---------------------------------------------------------------------------

  /** A saved document; only its creation time is read here. */
  datatype Document<T> = Document(id: string, title: string, createdAt: T)

  /** A value, or the `TypeError` JavaScript throws on reading a property of `undefined`. */
  datatype Outcome<T> = Value(value: T) | TypeError

  /**
   * `getDocumentTimestampByIndex(documents, index)` with the current time
   * `now` passed in; `documents` is absent when the caller has none loaded.
   * The guard only catches `index > documents.length`: at `index ==
   * documents.length` or a negative index, `documents[index]` is `undefined`
   * and reading its `createdAt` throws.
   */
  function DocumentTimestampByIndex<T>(documents: Option<seq<Document<T>>>, index: int, now: T): (r: Outcome<T>)
    ensures r.TypeError? <==> documents.Some? && (index < 0 || index == |documents.value|)
    ensures documents.None? || index > |documents.value| ==> r == Value(now)
    ensures r.Value? && documents.Some? && index <= |documents.value| ==>
      0 <= index < |documents.value| && r.value == documents.value[index].createdAt
  {
    match documents
    case None => Value(now)
    case Some(docs) =>
      if index > |docs| then Value(now)
      else if 0 <= index < |docs| then Value(docs[index].createdAt)
      else TypeError
  }

  // ---------------------------------------------------------------------------
  // getMessageIdFromAnnotations
  // ---------------------------------------------------------------------------

  /**
   * `getMessageIdFromAnnotations(message)`: the message's own id unless its
   * first annotation is truthy, in which case that annotation's
   * `messageIdFromServer`, which may be absent.
   */
  function MessageIdFromAnnotations<A, R>(message: UIMessage<A, R>): (r: Option<string>)
    ensures r.None? ==> message.annotations.Some? && |message.annotations.value| > 0
    ensures (message.annotations.None? || |message.annotations.value| == 0 || message.annotations.value[0].Falsy?)
            ==> r == Some(message.id)
    ensures message.annotations.Some? && |message.annotations.value| > 0 && message.annotations.value[0].Truthy?
            ==> r == message.annotations.value[0].messageIdFromServer
  {
    match message.annotations
    case None => Some(message.id)
    case Some(annotations) =>
      if |annotations| == 0 then Some(message.id)
      else match annotations[0]
        case Falsy => Some(message.id)
        case Truthy(fromServer) => fromServer
  }
}
