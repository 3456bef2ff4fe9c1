/** The debounce buffer and the client that delivers its batches. */
module DebounceBuffer {
  import opened Basics
  import opened ResourceSync

  datatype Counts = Counts(upserted: nat, deleted: nat)
  datatype ErrorInfo = ErrorInfo(code: string, message: string, details: Option<Counts>)
  datatype Response = Response(success: bool, data: Option<Counts>, error: Option<ErrorInfo>)

  /** Why a sync request failed; `Reported` is the server's own text. */
  datatype SyncError = ContextCancelled | NoAnswer | Reported(message: string) | NeverSent

  function ErrorMessage(r: Response): string {
    if r.error.Some? && r.error.value.message != "" then r.error.value.message
    else if r.error.Some? && r.error.value.code != "" then "error code: " + r.error.value.code
    else "unknown error"
  }

  function SuccessCounts(r: Response): Counts {
    match r.data
    case Some(counts) => counts
    case None => Counts(0, 0)
  }

  /** The text and the counts of a response, field by field. */
  lemma ResponseOnFields(code: string, message: string, details: Option<Counts>, data: Option<Counts>, upserted: nat, deleted: nat)
    ensures message != "" ==> ErrorMessage(Response(false, data, Some(ErrorInfo(code, message, details)))) == message
    ensures code != "" ==> ErrorMessage(Response(false, data, Some(ErrorInfo(code, "", details)))) == "error code: " + code
    ensures ErrorMessage(Response(false, data, Some(ErrorInfo("", "", details)))) == "unknown error"
    ensures ErrorMessage(Response(false, data, None)) == "unknown error"
    ensures var counts := SuccessCounts(Response(true, Some(Counts(upserted, deleted)), None));
            counts.upserted == upserted && counts.deleted == deleted
    ensures SuccessCounts(Response(true, None, None)) == Counts(0, 0)
  {
  }

  /**
    What the n-th request meets: whether the caller gives up while waiting for it, the answer, which
    keys the server touches if it does not report success, and whether the caller gives up after it.
   */
  datatype Exchange = Exchange(cancelledWaiting: bool, answer: Option<Response>, touched: set<string>, cancelledAfter: bool)
  {
    predicate Succeeds() {
      answer.Some? && answer.value.success
    }

    /** An answer with details of the failure ends the retries. */
    predicate Details() {
      answer.Some? && !answer.value.success && answer.value.error.Some? && answer.value.error.value.details.Some?
    }
  }

  type Exchanges = nat -> Exchange

  /** All requests before the n-th failed without details and nobody gave up, so the n-th is made. */
  ghost predicate Tried(x: Exchanges, maxRetries: int, n: nat) {
    && n <= maxRetries
    && (forall i: nat | i < n :: !x(i).Succeeds() && !x(i).Details() && !x(i).cancelledAfter)
    && (forall i: nat | 1 <= i <= n :: !x(i).cancelledWaiting)
  }

  /** Some request that is made is answered with success. */
  ghost predicate GetsThrough(x: Exchanges, maxRetries: int) {
    exists n: nat :: Tried(x, maxRetries, n) && x(n).Succeeds()
  }

  /** What a request that did not succeed makes the client report. */
  function Complaint(x: Exchange): SyncError {
    match x.answer
    case None => NoAnswer
    case Some(r) => Reported(ErrorMessage(r))
  }

  /** The error after `made` requests, from the last of them and from what ended the retries. */
  function ErrorAfter(x: Exchanges, maxRetries: int, made: nat): Option<SyncError> {
    if made == 0 then Some(NeverSent)
    else
      var last := x(made - 1);
      if last.Succeeds() then None
      else if last.Details() then Some(Complaint(last))
      else if last.cancelledAfter || made <= maxRetries then Some(ContextCancelled)
      else Some(Complaint(last))
  }

  /** The response that is handed back, if any: a success, or a failure with details. */
  function ResponseAfter(x: Exchanges, made: nat): Option<Response> {
    if made > 0 && (x(made - 1).Succeeds() || x(made - 1).Details()) then x(made - 1).answer else None
  }

  /** The counts that a success reports. */
  function CountsAfter(x: Exchanges, made: int): Counts {
    if made > 0 && x(made - 1).Succeeds() then SuccessCounts(x(made - 1).answer.value) else Counts(0, 0)
  }

  /** The server's store after one request: all of it applied on a success, else the touched keys. */
  function Served(store: Remote, upserts: seq<ResourceData>, deletes: seq<ResourceIdentifier>, x: Exchange): Remote {
    var full := Requested(store, upserts, deletes);
    if x.Succeeds() then full
    else map key | key in store.Keys + full.Keys && (if key in x.touched then key in full else key in store)
           :: if key in x.touched then full[key] else store[key]
  }

  lemma ServedBetween(store: Remote, upserts: seq<ResourceData>, deletes: seq<ResourceIdentifier>, x: Exchange)
    ensures Between(store, Requested(store, upserts, deletes), Served(store, upserts, deletes, x))
  {
  }

  /** A server whose answers are given; it counts the requests. */
  class McpServer {
    var store: Remote
    var requests: nat

    constructor (store: Remote)
      ensures this.store == store && requests == 0
    {
      this.store, requests := store, 0;
    }

    method Handle(upserts: seq<ResourceData>, deletes: seq<ResourceIdentifier>, x: Exchange) returns (answer: Option<Response>)
      modifies this
      ensures store == Served(old(store), upserts, deletes, x) && requests == old(requests) + 1 && answer == x.answer
    {
      store := Served(store, upserts, deletes, x);
      requests := requests + 1;
      return x.answer;
    }
  }

  /** The request stands for the batch, whose changes carry their own identifiers. */
  ghost predicate Stands(upserts: seq<ResourceData>, deletes: seq<ResourceIdentifier>, batch: Batch) {
    WellFormedBatch(batch) && Carries(upserts, deletes, batch)
  }

  lemma OneMoreAnswer(upserts: seq<ResourceData>, deletes: seq<ResourceIdentifier>, batch: Batch, first: Remote, before: Remote, x: Exchange)
    requires Stands(upserts, deletes, batch) && Between(first, Overlay(first, batch), before)
    ensures Between(first, Overlay(first, batch), Served(before, upserts, deletes, x))
    ensures x.Succeeds() ==> Served(before, upserts, deletes, x) == Overlay(first, batch)
  {
    RequestOrderIrrelevant(before, upserts, deletes, batch);
    OverlayAbsorbs(first, batch, before);
    ServedBetween(before, upserts, deletes, x);
    BetweenTransitive(first, batch, before, Served(before, upserts, deletes, x));
  }

  /** One request: over with a response or an error, or to be made again with a complaint so far. */
  method Attempt(server: McpServer, upserts: seq<ResourceData>, deletes: seq<ResourceIdentifier>, x: Exchange)
    returns (response: Option<Response>, error: Option<SyncError>, again: bool)
    modifies server
    ensures server.store == Served(old(server.store), upserts, deletes, x) && server.requests == old(server.requests) + 1
    ensures again <==> !x.Succeeds() && !x.Details() && !x.cancelledAfter
    ensures response == if x.Succeeds() || x.Details() then x.answer else None
    ensures error == if x.Succeeds() then None else if x.Details() || again then Some(Complaint(x)) else Some(ContextCancelled)
  {
    var answer := server.Handle(upserts, deletes, x);
    if answer.Some? && answer.value.success {
      return answer, None, false;
    }
    var lastError := NoAnswer;
    if answer.Some? {
      lastError := Reported(ErrorMessage(answer.value));
      if answer.value.error.Some? && answer.value.error.value.details.Some? {
        return answer, Some(lastError), false;
      }
    }
    if x.cancelledAfter {
      return None, Some(ContextCancelled), false;
    }
    return None, Some(lastError), true;
  }

  /**
    Sends a request until it succeeds, at most `maxRetries` times more: it makes exactly the requests
    whose predecessors failed without details while nobody gave up, and succeeds if one of them does.
   */
  method SendWithRetry(server: McpServer, upserts: seq<ResourceData>, deletes: seq<ResourceIdentifier>, maxRetries: int, x: Exchanges,
                       ghost batch: Batch)
    returns (response: Option<Response>, error: Option<SyncError>)
    modifies server
    ensures server.requests >= old(server.requests)
    ensures var made := server.requests - old(server.requests);
            && (forall n: nat :: n < made <==> Tried(x, maxRetries, n))
            && error == ErrorAfter(x, maxRetries, made) && response == ResponseAfter(x, made)
    ensures error.None? <==> GetsThrough(x, maxRetries)
    ensures Stands(upserts, deletes, batch) ==> Delivered(old(server.store), batch, error, server.store)
    ensures error.None? ==> response.Some? && response.value.success
  {
    error := Some(NeverSent);
    var attempt: nat := 0;
    while attempt <= maxRetries
      invariant server.requests == old(server.requests) + attempt
      invariant attempt == 0 || attempt <= maxRetries + 1
      invariant forall i: nat | i < attempt :: !x(i).Succeeds() && !x(i).Details() && !x(i).cancelledAfter
      invariant forall i: nat | 1 <= i < attempt :: !x(i).cancelledWaiting
      invariant error == Some(if attempt == 0 then NeverSent else Complaint(x(attempt - 1)))
      invariant Stands(upserts, deletes, batch) ==> Between(old(server.store), Overlay(old(server.store), batch), server.store)
      decreases maxRetries - attempt
    {
      if attempt > 0 {
        if x(attempt).cancelledWaiting {
          return None, Some(ContextCancelled);
        }
      }
      if Stands(upserts, deletes, batch) {
        OneMoreAnswer(upserts, deletes, batch, old(server.store), server.store, x(attempt));
      }
      assert Tried(x, maxRetries, attempt);
      var again;
      response, error, again := Attempt(server, upserts, deletes, x(attempt));
      if !again {
        return;
      }
      attempt := attempt + 1;
    }
    return None, error;
  }

  predicate HasPayload(c: Change) {
    if c.action.Delete? then c.deleteIdentifier.Some? else c.data.Some?
  }

  /** The changes that a flush can send. */
  function Sendable(batch: Batch): Batch {
    map id | id in batch && HasPayload(batch[id]) :: batch[id]
  }

  lemma WellFormedIsSendable(batch: Batch)
    requires WellFormedBatch(batch)
    ensures Sendable(batch) == batch
  {
  }

  /** After an error everything is pending again; after a success nothing is. */
  predicate Settled(batch: Batch, error: Option<SyncError>, changes: Batch) {
    changes == if error.Some? then batch else map[]
  }

  /** After a success the whole batch is remote; after an error any part of it. */
  ghost predicate Delivered(before: Remote, batch: Batch, error: Option<SyncError>, after: Remote) {
    Between(before, Overlay(before, batch), after) && (error.None? ==> after == Overlay(before, batch))
  }

  lemma CarryDelete(upserts: seq<ResourceData>, deletes: seq<ResourceIdentifier>, batch: Batch, c: Change)
    requires Carries(upserts, deletes, batch) && c.id !in batch && WellFormed(c) && c.action.Delete?
    ensures Carries(upserts, deletes + [c.deleteIdentifier.value], batch[c.id := c])
  {
  }

  lemma CarryUpsert(upserts: seq<ResourceData>, deletes: seq<ResourceIdentifier>, batch: Batch, c: Change)
    requires Carries(upserts, deletes, batch) && c.id !in batch && WellFormed(c) && c.action.Upsert?
    ensures Carries(upserts + [c.data.value], deletes, batch[c.id := c])
  {
  }

  function Recording(batch: Batch, c: Option<Change>): Batch {
    if c.Some? && c.value.id != "" then batch[c.value.id := c.value] else batch
  }

  /** What the buffer's event loop can receive next. */
  datatype Signal = Received(change: Option<Change>) | Tick(x: Exchanges) | ContextDone(x: Exchanges) | QueueClosed(x: Exchanges)

  /** The store that the changes received until the loop stops should lead to, in order. */
  function Expected(remote: Remote, signals: seq<Signal>): Remote
    decreases |signals|
  {
    if |signals| == 0 then remote
    else match signals[0]
      case Received(change) => Expected(if Records(change) then ApplyOne(remote, change.value) else remote, signals[1..])
      case Tick(_) => Expected(remote, signals[1..])
      case ContextDone(_) => remote
      case QueueClosed(_) => remote
  }

  /** The flush that ends a run: the one that stops the loop, or a tick that nothing follows. */
  function LastFlush(signals: seq<Signal>): Option<Exchanges>
    decreases |signals|
  {
    if |signals| == 0 then None
    else match signals[0]
      case Received(_) => LastFlush(signals[1..])
      case Tick(x) => if |signals| == 1 then Some(x) else LastFlush(signals[1..])
      case ContextDone(x) => Some(x)
      case QueueClosed(x) => Some(x)
  }

  /** What is pending in the end without a client. */
  function Unsent(changes: Batch, signals: seq<Signal>): Batch
    decreases |signals|
  {
    if |signals| == 0 then changes
    else match signals[0]
      case Received(change) => Unsent(Recording(changes, change), signals[1..])
      case Tick(_) => Unsent(map[], signals[1..])
      case ContextDone(_) => map[]
      case QueueClosed(_) => map[]
  }

  ghost predicate WellFormedSignals(signals: seq<Signal>) {
    forall i | 0 <= i < |signals| && signals[i].Received? && Records(signals[i].change) :: WellFormed(signals[i].change.value)
  }

  predicate Records(change: Option<Change>) {
    change.Some? && change.value.id != ""
  }

  /** Whatever the informer handlers queue is well formed. */
  lemma HandlersSignalWellFormed(signals: seq<Signal>, notices: seq<Notice>, times: seq<Time>)
    requires |notices| == |signals| == |times|
    requires forall i | 0 <= i < |signals| && signals[i].Received? :: signals[i].change == Handled(notices[i], times[i])
    ensures WellFormedSignals(signals)
  {
    forall i | 0 <= i < |signals| && signals[i].Received? && Records(signals[i].change)
      ensures WellFormed(signals[i].change.value)
    {
      HandledWellFormed(notices[i], times[i]);
    }
  }

  /** The changes of a buffer but those still pending. */
  function Without(changes: Batch, pending: set<string>): Batch {
    map id | id in changes && id !in pending :: changes[id]
  }

  /** The request made from all changes but those still pending. */
  ghost predicate Collected(changes: Batch, pending: set<string>, upserts: seq<ResourceData>, deletes: seq<ResourceIdentifier>, batch: Batch) {
    && batch == Sendable(Without(changes, pending)) && |upserts| + |deletes| == |batch|
    && (WellFormedBatch(Sendable(changes)) ==> Carries(upserts, deletes, batch))
  }

  lemma SendableOneMore(changes: Batch, pending: set<string>, id: string)
    requires id in pending && id in changes
    ensures var before, after := Sendable(Without(changes, pending)), Sendable(Without(changes, pending - {id}));
            id !in before && after == if HasPayload(changes[id]) then before[id := changes[id]] else before
    ensures HasPayload(changes[id]) ==> id in Sendable(changes) && Sendable(changes)[id] == changes[id]
  {
  }

  /** Adds one pending change to the request, if it has anything to send. */
  method PutInRequest(changes: Batch, ghost pending: set<string>, id: string,
                      upserts: seq<ResourceData>, deletes: seq<ResourceIdentifier>, batch: Batch)
    returns (upserts': seq<ResourceData>, deletes': seq<ResourceIdentifier>, batch': Batch)
    requires id in pending && id in changes && Collected(changes, pending, upserts, deletes, batch)
    ensures Collected(changes, pending - {id}, upserts', deletes', batch')
  {
    upserts', deletes', batch' := upserts, deletes, batch;
    var change := changes[id];
    SendableOneMore(changes, pending, id);
    if change.action.Delete? {
      if change.deleteIdentifier.Some? {
        if WellFormedBatch(Sendable(changes)) {
          CarryDelete(upserts, deletes, batch, change);
        }
        deletes' := deletes + [change.deleteIdentifier.value];
        batch' := batch[id := change];
      }
    } else if change.data.Some? {
      if WellFormedBatch(Sendable(changes)) {
        CarryUpsert(upserts, deletes, batch, change);
      }
      upserts' := upserts + [change.data.value];
      batch' := batch[id := change];
    }
  }

  class DebounceBuffer {
    const client: McpServer?
    const maxRetries: int
    var changes: Batch
    var totalUpserts: int
    var totalDeletes: int
    var totalFlushes: int
    var totalDropped: int
    var lastFlushCount: int
    var lastError: Option<SyncError>

    constructor (client: McpServer?, maxRetries: int)
      ensures this.client == client && this.maxRetries == maxRetries && changes == map[] && lastError == None
      ensures totalUpserts == totalDeletes == totalFlushes == totalDropped == lastFlushCount == 0
    {
      this.client, this.maxRetries := client, maxRetries;
      changes, lastError := map[], None;
      totalUpserts, totalDeletes, totalFlushes, totalDropped, lastFlushCount := 0, 0, 0, 0, 0;
    }

    /** Last state wins: the newest change of an id replaces any other. */
    method Record(change: Option<Change>)
      modifies this`changes, this`totalDropped
      ensures changes == Recording(old(changes), change)
      ensures totalDropped == old(totalDropped) + (if change.Some? && change.value.id == "" then 1 else 0)
    {
      if change.None? {
        return;
      }
      var id := change.value.id;
      if id == "" {
        totalDropped := totalDropped + 1;
        return;
      }
      changes := changes[id := change.value];
    }

    /** The locked part of a flush: empties the buffer into a request. Changes without a payload are lost. */
    method TakeBatch() returns (upserts: seq<ResourceData>, deletes: seq<ResourceIdentifier>, toRequeue: Batch)
      modifies this`changes
      ensures changes == map[] && toRequeue == Sendable(old(changes))
      ensures |upserts| + |deletes| == |toRequeue|
      ensures WellFormedBatch(toRequeue) ==> Carries(upserts, deletes, toRequeue)
    {
      upserts, deletes, toRequeue := [], [], map[];
      var pending := changes.Keys;
      while pending != {}
        invariant pending <= changes.Keys && changes == old(changes)
        invariant Collected(changes, pending, upserts, deletes, toRequeue)
        decreases pending
      {
        var id :| id in pending;
        upserts, deletes, toRequeue := PutInRequest(changes, pending, id, upserts, deletes, toRequeue);
        pending := pending - {id};
      }
      assert Without(changes, {}) == changes;
      changes := map[];
    }

    /** Puts failed changes back, unless a newer change of the same id has arrived. */
    method RequeueChangesFromMap(failed: Batch)
      modifies this`changes
      ensures changes == Requeued(old(changes), failed)
    {
      var pending := failed.Keys;
      while pending != {}
        invariant pending <= failed.Keys
        invariant changes == Requeued(old(changes), map id | id in failed && id !in pending :: failed[id])
        decreases pending
      {
        var id :| id in pending;
        pending := pending - {id};
        if id !in changes {
          changes := changes[id := failed[id]];
        }
      }
      assert (map id | id in failed && id !in pending :: failed[id]) == failed;
    }

    /** Delivers the pending changes, or keeps all of them that can be sent for the next flush. */
    method Flush(x: Exchanges)
      modifies this, client
      ensures client != null && Sendable(old(changes)) != map[] ==>
                && client.requests >= old(client.requests)
                && (forall n: nat :: n < client.requests - old(client.requests) <==> Tried(x, maxRetries, n))
                && lastError == ErrorAfter(x, maxRetries, client.requests - old(client.requests))
                && (lastError.None? <==> GetsThrough(x, maxRetries))
      ensures totalDropped == old(totalDropped)
      ensures old(changes) == map[] ==> unchanged(this)
      ensures client == null || Sendable(old(changes)) == map[] ==>
                changes == map[] && lastError == old(lastError) && totalFlushes == old(totalFlushes) && (client != null ==> unchanged(client))
                && totalUpserts == old(totalUpserts) && totalDeletes == old(totalDeletes)
      ensures client != null && Sendable(old(changes)) != map[] ==>
                var counts := CountsAfter(x, client.requests - old(client.requests));
                totalUpserts == old(totalUpserts) + counts.upserted && totalDeletes == old(totalDeletes) + counts.deleted
      ensures client != null && Sendable(old(changes)) != map[] ==>
                var sent := Sendable(old(changes));
                && Settled(sent, lastError, changes)
                && totalFlushes == old(totalFlushes) + (if lastError.None? then 1 else 0)
                && lastFlushCount == (if lastError.None? then |sent| else old(lastFlushCount))
                && (WellFormedBatch(sent) ==> Delivered(old(client.store), sent, lastError, client.store))
      ensures client != null && WellFormedBatch(Sendable(old(changes))) ==>
                WellFormedBatch(changes) && Overlay(client.store, changes) == Overlay(old(client.store), Sendable(old(changes)))
    {
      if |changes| == 0 {
        return;
      }
      var upserts, deletes, toRequeue := TakeBatch();
      if |upserts| == 0 && |deletes| == 0 {
        assert toRequeue == map[];
        return;
      }
      if client == null {
        return;
      }
      Deliver(upserts, deletes, toRequeue, x);
    }

    /** The part of a flush that needs no lock: the request and what its end means. */
    method Deliver(upserts: seq<ResourceData>, deletes: seq<ResourceIdentifier>, toRequeue: Batch, x: Exchanges)
      requires client != null && changes == map[] && (WellFormedBatch(toRequeue) ==> Carries(upserts, deletes, toRequeue))
      modifies this, client
      ensures client.requests >= old(client.requests)
      ensures forall n: nat :: n < client.requests - old(client.requests) <==> Tried(x, maxRetries, n)
      ensures lastError == ErrorAfter(x, maxRetries, client.requests - old(client.requests))
      ensures lastError.None? <==> GetsThrough(x, maxRetries)
      ensures Settled(toRequeue, lastError, changes) && totalDropped == old(totalDropped)
      ensures totalFlushes == old(totalFlushes) + (if lastError.None? then 1 else 0)
      ensures lastFlushCount == if lastError.None? then |upserts| + |deletes| else old(lastFlushCount)
      ensures var counts := CountsAfter(x, client.requests - old(client.requests));
              totalUpserts == old(totalUpserts) + counts.upserted && totalDeletes == old(totalDeletes) + counts.deleted
      ensures WellFormedBatch(toRequeue) ==>
                Delivered(old(client.store), toRequeue, lastError, client.store)
                && WellFormedBatch(changes) && Overlay(client.store, changes) == Overlay(old(client.store), toRequeue)
    {
      var response, error := SendWithRetry(client, upserts, deletes, maxRetries, x, toRequeue);
      Settle(response, error, toRequeue, |upserts| + |deletes|);
      if WellFormedBatch(toRequeue) {
        FlushKeepsOverlay(old(client.store), toRequeue, error, client.store, changes);
      }
    }

    /** Nothing is pending if the flush that ended the run got through. */
    ghost predicate AfterLastFlush(signals: seq<Signal>, changes: Batch) {
      LastFlush(signals).Some? && GetsThrough(LastFlush(signals).value, maxRetries) ==> changes == map[]
    }

    /** If one of the requests that a flush makes is answered with success, everything pending is remote. */
    method FlushThrough(x: Exchanges)
      requires client != null && WellFormedBatch(changes) && GetsThrough(x, maxRetries)
      modifies this, client
      ensures changes == map[] && client.store == Overlay(old(client.store), old(changes))
    {
      WellFormedIsSendable(changes);
      if changes == map[] {
        assert Overlay(client.store, map[]) == client.store;
      }
      Flush(x);
    }

    /** What a flush does once the request has ended. */
    method Settle(response: Option<Response>, error: Option<SyncError>, toRequeue: Batch, sent: nat)
      requires changes == map[] && (error.None? ==> response.Some? && response.value.success)
      modifies this
      ensures totalDropped == old(totalDropped) && lastError == error && Settled(toRequeue, error, changes)
      ensures totalFlushes == old(totalFlushes) + (if error.None? then 1 else 0)
      ensures lastFlushCount == if error.None? then sent else old(lastFlushCount)
      ensures var counts := if error.None? then SuccessCounts(response.value) else Counts(0, 0);
              totalUpserts == old(totalUpserts) + counts.upserted && totalDeletes == old(totalDeletes) + counts.deleted
    {
      if error.Some? {
        lastError := error;
        RequeueChangesFromMap(toRequeue);
        return;
      }
      totalFlushes := totalFlushes + 1;
      lastFlushCount := sent;
      var counts := SuccessCounts(response.value);
      totalUpserts, totalDeletes := totalUpserts + counts.upserted, totalDeletes + counts.deleted;
      if !response.value.success {
        assert false;
      }
      lastError := None;
    }

    /** A flush changes the place of the pending changes, not their meaning. */
    lemma FlushKeepsOverlay(before: Remote, batch: Batch, error: Option<SyncError>, after: Remote, changes': Batch)
      requires Settled(batch, error, changes') && Delivered(before, batch, error, after)
      ensures Overlay(after, changes') == Overlay(before, batch)
    {
      if error.Some? {
        OverlayAbsorbs(before, batch, after);
      } else {
        assert Overlay(after, map[]) == after;
      }
    }

    /**
      The event loop. Whatever the server does and whenever the flushes come, what is remote plus
      what is pending is what the received changes lead to in order; nothing is lost. If the flush
      that ends the run gets through, nothing is pending either. Without a client every flush loses
      what was pending.
     */
    method Run(signals: seq<Signal>)
      modifies this, client
      ensures client == null ==> changes == Unsent(old(changes), signals)
      ensures client != null && WellFormedBatch(old(changes)) && WellFormedSignals(signals) ==>
                WellFormedBatch(changes)
                && Overlay(client.store, changes) == Expected(Overlay(old(client.store), old(changes)), signals)
      ensures client != null && WellFormedBatch(old(changes)) && WellFormedSignals(signals)
              && LastFlush(signals).Some? && GetsThrough(LastFlush(signals).value, maxRetries) ==>
                changes == map[] && client.store == Expected(Overlay(old(client.store), old(changes)), signals)
    {
      ghost var fine := client != null && WellFormedBatch(changes) && WellFormedSignals(signals);
      assert signals[0..] == signals;
      for i := 0 to |signals|
        invariant client == null ==> Unsent(changes, signals[i..]) == Unsent(old(changes), signals)
        invariant fine ==> WellFormedBatch(changes)
        invariant fine ==> Expected(Overlay(client.store, changes), signals[i..])
                           == Expected(Overlay(old(client.store), old(changes)), signals)
        invariant i < |signals| ==> LastFlush(signals[i..]) == LastFlush(signals)
        invariant fine && i == |signals| ==> AfterLastFlush(signals, changes)
      {
        assert signals[i..][1..] == signals[i + 1..];
        if fine {
          WellFormedIsSendable(changes);
        }
        match signals[i] {
          case ContextDone(x) =>
            Flush(x);
            return;
          case QueueClosed(x) =>
            Flush(x);
            return;
          case Received(change) =>
            if fine && Records(change) {
              OverlayRecord(client.store, changes, change.value);
            }
            Record(change);
          case Tick(x) =>
            Flush(x);
        }
      }
      assert fine ==> (changes == map[] ==> Overlay(client.store, changes) == client.store);
    }
  }
}
