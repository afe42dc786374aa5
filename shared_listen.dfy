/**
 * The requestor side of the shared listening socket handoff: a kid process
 * records each outstanding request in a table keyed by a locally allocated
 * id, sends the request to the coordinator, and on the coordinator's answer
 * looks the id up, removes it, completes the received connection from the
 * retained parameters and fills in the waiting callback.
 */
module SharedListen {
  import opened ListenParams
  import opened RequestIds

  /** A listening connection (`Comm::Connection`), reduced to the fields the
      handoff touches. `imported` records that the connection was handed to
      the comm layer's import step. */
  class Connection {
    var fd: int
    var local: Address
    var flags: int
    var imported: bool

    /** A connection built around a received descriptor; nothing else is
        known about it yet. */
    constructor (fd: int)
      ensures this.fd == fd && local == ZeroAddress && flags == 0 && !imported
    {
      this.fd := fd;
      local := ZeroAddress;
      flags := 0;
      imported := false;
    }
  }

  /** `Comm::IsConnOpen`: the connection holds a valid descriptor. */
  predicate IsConnOpen(c: Connection)
    reads c
  {
    c.fd >= 0
  }

  /** The dialer of the callback waiting for a listening socket
      (`StartListeningCb`). `scheduled` records that the call was put on the
      event queue. */
  class StartListeningCb {
    var conn: Connection?
    var errNo: int
    var handlerSubscription: SubscriptionRef
    var scheduled: bool

    constructor ()
      ensures conn == null && errNo == 0 && handlerSubscription == 0 && !scheduled
    {
      conn := null;
      errNo := 0;
      handlerSubscription := 0;
      scheduled := false;
    }
  }

  /** What is kept while a request is outstanding; the callback pointer may
      be null. */
  datatype PendingOpenRequest = PendingOpenRequest(params: OpenListenerParams, callback: StartListeningCb?)

  /** The request message a kid sends to the coordinator. */
  datatype SharedListenRequest = SharedListenRequest(requestorId: int, params: OpenListenerParams, mapId: int)

  /** The coordinator's answer: the received connection (only its descriptor
      is filled in), an error number and the echoed request id. */
  datatype SharedListenResponse = SharedListenResponse(conn: Connection, errNo: int, mapId: int)

  /** The two `Must` checks of the response handler. */
  datatype JoinError = UnknownMapId | NullCallback

  datatype Outcome = Handled | MustFailed(error: JoinError)

  /** A request as the default constructor leaves it, before the caller
      fills it in: both ids are the unset value -1. */
  function NewSharedListenRequest(): (r: SharedListenRequest)
    ensures r.requestorId == -1 && r.mapId == -1
    ensures r.params == ZeroParams()
  {
    SharedListenRequest(-1, ZeroParams(), -1)
  }

  /** The table of outstanding requests of one kid process. */
  class SharedListenRequestMap {
    var entries: map<int, PendingOpenRequest>

    /** Every id in the table was handed out by the scan, so none is
        negative. */
    ghost predicate Valid()
      reads this
    {
      forall id :: id in entries ==> id >= 0
    }

    /** The callback a response with id `mapId` will fill in, if any. */
    function PendingCallback(mapId: int): (cbs: set<object>)
      reads this
    {
      if mapId in entries && entries[mapId].callback != null then {entries[mapId].callback} else {}
    }

    constructor ()
      ensures Valid() && entries == map[]
    {
      entries := map[];
    }

    /** Stores `por` under the smallest unused non-negative id and returns
        that id; every other entry stays as it was. */
    method AddToMap(por: PendingOpenRequest) returns (id: int)
      requires Valid()
      modifies this
      ensures Valid()
      ensures IsLowestFree(old(entries), id)
      ensures entries == old(entries)[id := por]
      ensures |entries| == |old(entries)| + 1
    {
      id := FindUnusedId(entries);
      entries := entries[id := por];
    }

    /** Records the request under a fresh id and returns the message for the
        coordinator: the caller's parameters, this kid's id and the table id. */
    method JoinSharedListen(params: OpenListenerParams, callback: StartListeningCb?, kidIdentifier: int)
      returns (request: SharedListenRequest)
      requires Valid()
      modifies this
      ensures Valid()
      ensures request.params == params && request.requestorId == kidIdentifier
      ensures IsLowestFree(old(entries), request.mapId)
      ensures entries == old(entries)[request.mapId := PendingOpenRequest(params, callback)]
    {
      var por := PendingOpenRequest(params, callback);
      request := NewSharedListenRequest();
      request := request.(requestorId := kidIdentifier, params := por.params);
      var id := AddToMap(por);
      request := request.(mapId := id);
    }

    /** Handles the coordinator's answer. An unknown id or a null callback
        fails before anything changes. Otherwise the entry is removed, an
        open connection receives the retained address and flags and is
        imported, and the callback receives the connection, the error
        number and the retained subscription and is scheduled. */
    method SharedListenJoined(response: SharedListenResponse) returns (outcome: Outcome)
      requires Valid()
      modifies this, response.conn, PendingCallback(response.mapId)
      ensures Valid()
      ensures response.mapId !in old(entries) ==>
        outcome == MustFailed(UnknownMapId) && entries == old(entries) && unchanged(response.conn)
      ensures response.mapId in old(entries) && old(entries[response.mapId].callback) == null ==>
        outcome == MustFailed(NullCallback) && entries == old(entries) && unchanged(response.conn)
      ensures response.mapId in old(entries) && old(entries[response.mapId].callback) != null ==>
        var por := old(entries[response.mapId]);
        var c, cb := response.conn, por.callback;
        && outcome == Handled
        && entries == old(entries) - {response.mapId}
        && (if old(IsConnOpen(c))
            then c.fd == old(c.fd) && c.local == por.params.addr && c.flags == por.params.flags && c.imported
            else unchanged(c))
        && cb.conn == c && cb.errNo == response.errNo
        && cb.handlerSubscription == por.params.handlerSubscription && cb.scheduled
    {
      var c := response.conn;
      if response.mapId !in entries {
        return MustFailed(UnknownMapId);
      }
      var por := entries[response.mapId];
      if por.callback == null {
        return MustFailed(NullCallback);
      }
      entries := entries - {response.mapId};

      if IsConnOpen(c) {
        var p := por.params;
        c.local := p.addr;
        c.flags := p.flags;
        c.imported := true;
      }

      var cbd := por.callback;
      cbd.conn := c;
      cbd.errNo := response.errNo;
      cbd.handlerSubscription := por.params.handlerSubscription;
      cbd.scheduled := true;
      outcome := Handled;
    }
  }

  /** An unset request id never matches an outstanding entry. */
  lemma UnsetMapIdNeverPending(table: SharedListenRequestMap)
    requires table.Valid()
    ensures NewSharedListenRequest().mapId !in table.entries
  {
  }

  /** A whole exchange: a join followed by the matching answer leaves the
      table as it was, and the callback and an open connection end up with
      the parameters the caller passed, although the answer carried none of
      them. */
  method JoinThenJoined(table: SharedListenRequestMap, params: OpenListenerParams, cb: StartListeningCb,
                        kidIdentifier: int, conn: Connection, errNo: int)
    returns (request: SharedListenRequest, outcome: Outcome)
    requires table.Valid()
    modifies table, conn, cb
    ensures table.Valid() && table.entries == old(table.entries)
    ensures IsLowestFree(old(table.entries), request.mapId)
    ensures outcome == Handled
    ensures cb.conn == conn && cb.errNo == errNo && cb.handlerSubscription == params.handlerSubscription
    ensures cb.scheduled
    ensures old(IsConnOpen(conn)) ==> conn.local == params.addr && conn.flags == params.flags && conn.imported
    ensures !old(IsConnOpen(conn)) ==> unchanged(conn)
  {
    request := table.JoinSharedListen(params, cb, kidIdentifier);
    outcome := table.SharedListenJoined(SharedListenResponse(conn, errNo, request.mapId));
  }
}
