/**
  * The postMessage RPC layer shared by the extension host and the webview.
  *
  * Each side owns a `MessageHandler`: one counter numbers every envelope the
  * side posts (events, requests and replies alike), and a pending table maps
  * the ids of its own unanswered requests to the promises `sendRequest`
  * handed out. An incoming envelope with `inReplyTo` settles a pending
  * request; one without goes to the side's handler, whose answer, if any,
  * is posted back as a reply. The handler answers asynchronously, so the
  * model splits that into `HandleMessage` (the handler is called) and
  * `HandlerSettled` (its promise settles).
  */
module Protocol {
  import opened Prelude

  /** `WebviewMessage<T>`: the envelope of every posted message. */
  datatype WebviewMessage<T> = WebviewMessage(messageId: nat, inReplyTo: Option<nat>, body: T)

  /** The promise `sendRequest` returned for request `request` resolved with `reply`. */
  datatype Resolution<T> = Resolution(request: nat, reply: T)

  class MessageHandler<To, From> {
    var messageIdCounter: nat
    /** The keys of `pendingMessages`; each stands for the promise of that request. */
    var pendingMessages: set<nat>
    /** What was passed to `postMessage`, in order. */
    var posted: seq<WebviewMessage<To>>
    /** Settled request promises, in the order they settled. */
    var resolved: seq<Resolution<From>>
    /** Incoming messages handed to `messageHandler` whose answer is still awaited. */
    var awaitingHandler: seq<WebviewMessage<From>>

    /** The ids this side used for requests (as opposed to events and replies). */
    ghost var requests: set<nat>

    ghost predicate Valid()
      reads this
    {
      // ids are 0, 1, 2, ... in posting order
      && messageIdCounter == |posted|
      && (forall i :: 0 <= i < |posted| ==> posted[i].messageId == i)
      // requests are envelopes without inReplyTo
      && (forall id :: id in requests ==> id < |posted| && posted[id].inReplyTo.None?)
      // a request is pending, or was resolved, never both, never twice
      && pendingMessages <= requests
      && (forall k :: 0 <= k < |resolved| ==> resolved[k].request in requests - pendingMessages)
      && (forall i, j :: 0 <= i < j < |resolved| ==> resolved[i].request != resolved[j].request)
    }

    constructor ()
      ensures Valid()
      ensures messageIdCounter == 0 && pendingMessages == {} && posted == []
      ensures resolved == [] && awaitingHandler == [] && requests == {}
    {
      messageIdCounter := 0;
      pendingMessages := {};
      posted := [];
      resolved := [];
      awaitingHandler := [];
      requests := {};
    }

    /** Posts `body` with the next id, then increments the counter. */
    method Post(inReplyTo: Option<nat>, body: To)
      requires Valid()
      modifies this
      ensures Valid()
      ensures posted == old(posted) + [WebviewMessage(old(messageIdCounter), inReplyTo, body)]
      ensures messageIdCounter == old(messageIdCounter) + 1
      ensures pendingMessages == old(pendingMessages) && resolved == old(resolved)
      ensures awaitingHandler == old(awaitingHandler) && requests == old(requests)
    {
      posted := posted + [WebviewMessage(messageIdCounter, inReplyTo, body)];
      messageIdCounter := messageIdCounter + 1;
    }

    /** `sendEvent`: posts `body` with no `inReplyTo`; no reply is expected. */
    method SendEvent(body: To)
      requires Valid()
      modifies this
      ensures Valid()
      ensures posted == old(posted) + [WebviewMessage(old(messageIdCounter), None, body)]
      ensures messageIdCounter == old(messageIdCounter) + 1
      ensures pendingMessages == old(pendingMessages) && resolved == old(resolved)
      ensures awaitingHandler == old(awaitingHandler) && requests == old(requests)
    {
      Post(None, body);
    }

    /**
      * `sendRequest`: posts `msg` with the next id and registers that id,
      * and only it, as pending.
      */
    method SendRequest(msg: To) returns (id: nat)
      requires Valid()
      modifies this
      ensures Valid()
      ensures id == old(messageIdCounter) && id !in old(pendingMessages)
      ensures posted == old(posted) + [WebviewMessage(id, None, msg)]
      ensures messageIdCounter == old(messageIdCounter) + 1
      ensures pendingMessages == old(pendingMessages) + {id} && requests == old(requests) + {id}
      ensures resolved == old(resolved) && awaitingHandler == old(awaitingHandler)
    {
      id := messageIdCounter;
      Post(None, msg);
      pendingMessages := pendingMessages + {id};
      requests := requests + {id};
    }

    /**
      * `handleMessage`: a reply (its `inReplyTo` is defined, 0 included)
      * resolves and removes the matching pending request, and is dropped
      * silently when there is none. Anything else goes to the handler, even
      * if its id equals one of this side's pending ids.
      */
    method HandleMessage(message: WebviewMessage<From>)
      requires Valid()
      modifies this
      ensures Valid()
      ensures posted == old(posted) && messageIdCounter == old(messageIdCounter) && requests == old(requests)
      ensures message.inReplyTo.Some? ==>
        var r := message.inReplyTo.value;
        && pendingMessages == old(pendingMessages) - {r}
        && resolved == old(resolved) + (if r in old(pendingMessages) then [Resolution(r, message.body)] else [])
        && awaitingHandler == old(awaitingHandler)
      ensures message.inReplyTo.None? ==>
        && pendingMessages == old(pendingMessages) && resolved == old(resolved)
        && awaitingHandler == old(awaitingHandler) + [message]
    {
      if message.inReplyTo.Some? {
        var r := message.inReplyTo.value;
        if r in pendingMessages {
          resolved := resolved + [Resolution(r, message.body)];
        }
        pendingMessages := pendingMessages - {r};
      } else {
        awaitingHandler := awaitingHandler + [message];
      }
    }

    /**
      * The handler's promise for `awaitingHandler[k]` settled. A defined
      * answer is sent back (`sendReply`) in reply to that message's id, with
      * a fresh id of this side; `None` (undefined, or a failed handler)
      * sends nothing.
      */
    method HandlerSettled(k: nat, reply: Option<To>)
      requires Valid() && k < |awaitingHandler|
      modifies this
      ensures Valid()
      ensures awaitingHandler == old(awaitingHandler[..k] + awaitingHandler[k + 1..])
      ensures reply.Some? ==>
        && posted == old(posted) + [WebviewMessage(old(messageIdCounter), Some(old(awaitingHandler[k].messageId)), reply.value)]
        && messageIdCounter == old(messageIdCounter) + 1
      ensures reply.None? ==> posted == old(posted) && messageIdCounter == old(messageIdCounter)
      ensures pendingMessages == old(pendingMessages) && resolved == old(resolved) && requests == old(requests)
    {
      var request := awaitingHandler[k];
      awaitingHandler := awaitingHandler[..k] + awaitingHandler[k + 1..];
      if reply.Some? {
        Post(Some(request.messageId), reply.value);
      }
    }
  }

  /** Message bodies of the hexite protocol that the scenarios below use. */
  datatype ToWebview = ReadyResponse(initialOffset: int, fileSize: Option<nat>) | ReloadFromDisk
  datatype FromWebview = ReadyRequest | OpenDocument

  /**
    * A request stays pending while an unrelated event arrives, even one
    * whose id equals the request's, and resolves only with its own reply;
    * a second reply to it changes nothing.
    */
  method EventDoesNotAnswerRequest() returns (id: nat, resolved: seq<Resolution<FromWebview>>,
                                              pendingAfterEvent: bool, posted: nat)
    ensures id == 0 && pendingAfterEvent
    ensures resolved == [Resolution(0, OpenDocument)]
    ensures posted == 1
  {
    var side := new MessageHandler<ToWebview, FromWebview>();
    id := side.SendRequest(ReloadFromDisk);
    side.HandleMessage(WebviewMessage(0, None, ReadyRequest));
    pendingAfterEvent := id in side.pendingMessages;
    side.HandleMessage(WebviewMessage(1, Some(0), OpenDocument));
    side.HandleMessage(WebviewMessage(2, Some(0), ReadyRequest));
    resolved := side.resolved;
    posted := |side.posted|;
  }

  /**
    * Replies share the counter with events: after an event (id 0) the
    * answer to an incoming request gets id 1 and names the request's id.
    */
  method ReplyTakesNextId() returns (sent: seq<WebviewMessage<ToWebview>>)
    ensures sent == [WebviewMessage(0, None, ReloadFromDisk),
                     WebviewMessage(1, Some(7), ReadyResponse(0, Some(16)))]
  {
    var side := new MessageHandler<ToWebview, FromWebview>();
    side.SendEvent(ReloadFromDisk);
    side.HandleMessage(WebviewMessage(7, None, ReadyRequest));
    side.HandlerSettled(0, Some(ReadyResponse(0, Some(16))));
    sent := side.posted;
  }
}
