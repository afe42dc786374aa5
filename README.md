# Shared listening sockets: the requestor side

Squid runs several worker processes ("kids") that must accept connections on
the same listening address. A kid does not bind the socket itself. It asks
the coordinator process for it and receives the descriptor later, in an
asynchronous answer. This project models the kid's side of that exchange, as
`src/ipc/SharedListen.cc` implements it:

- **The listen-key order** (`OpenListenerParams::operator<`). Requests are
  ordered by socket type, then protocol, then whole address. Flags, the
  descriptor note and the handler subscription are ignored, because they do
  not affect binding. Module `ListenParams` defines the order and proves it is
  a strict order whose equivalence classes are exactly "same type, protocol
  and address". It also proves that the order is the lexicographic order on
  the sequence (type, protocol, address...).
- **The pending-request table** (`TheSharedListenRequestMap`). This is the
  class `SharedListen.SharedListenRequestMap`, which holds a
  `map<int, PendingOpenRequest>`. `AddToMap` scans 0, 1, 2, ... for the first
  unused id. The scan is the method `RequestIds.FindUnusedId`. Its loop is
  proved to stop, because it can never pass the table's size. Its result is
  proved to be the smallest non-negative id that is not in use.
- **Issuing a request and handling the answer.** `JoinSharedListen` stores
  `{params, callback}` under a fresh id and builds the request message.
  `SharedListenJoined` does the following in order:
  - it checks that the answer's id is pending;
  - it checks that the stored callback is not null;
  - it removes the entry;
  - if the received connection is open, it copies the retained address and
    flags onto the connection and imports it;
  - it fills the callback's connection, error number and subscription, and
    schedules the callback.

Each `Must` failure is returned as an `Outcome`, and the table is unchanged in
that case. The source's `Must` throws an exception instead.

The address comparison `Ip::Address::compareWhole` is not part of this model.
It is modelled as a three-way lexicographic comparison of a `seq<int>`. The
strict-order lemmas (`LessIrreflexive`, `LessTransitive`, `LessTrichotomous`,
`LessRespectsSameKey`, `LessIgnoresFlagsAndNote`) use only three facts about
it: it is zero exactly on equal addresses, it is antisymmetric, and it is
transitive. `LessIsLexicographicOnKey` depends on the stand-in's lexicographic
definition itself.

The merge at line 138 is guarded by `Comm::IsConnOpen(c)`, not by `errNo`. An
open descriptor that arrives with a non-zero `errNo` still gets the retained
address and flags and is still imported. `IsConnOpen` is modelled as "the
descriptor is non-negative". `Comm::Connection` is not part of this model. The
connection is taken to be non-null, because line 130 dereferences it
unconditionally.

## Model

| member | source | states |
|---|---|---|
| `ListenParams.CompareWhole` | src/ipc/SharedListen.cc:63 | the whole-address comparison is three-way: its result is -1, 0 or 1 |
| `ListenParams.CompareWholeZeroIff` | src/ipc/SharedListen.cc:63 | the comparison is zero exactly when the two addresses are equal |
| `ListenParams.CompareWholeAntisymmetric` | src/ipc/SharedListen.cc:63 | swapping the addresses negates the comparison |
| `ListenParams.CompareWholeTransitive` | src/ipc/SharedListen.cc:63 | "sorts before" on addresses is transitive |
| `ListenParams.ZeroParams` | src/ipc/SharedListen.cc:47-50 | a freshly constructed parameter block has every field zero: type, protocol, flags, note, subscription and the all-zero address |
| `ListenParams.Less` | src/ipc/SharedListen.cc:52-64 | `operator<`: socket type decides first, then protocol, then the whole-address comparison; a request before another never has a larger type, and with equal types never a larger protocol |
| `ListenParams.LessIsLexicographicOnKey` | src/ipc/SharedListen.cc:52-64 | `a < b` holds exactly when (type, protocol, address) of `a` sorts lexicographically before that of `b`, i.e. type decides first, then protocol, then address |
| `ListenParams.SameKeyIffKeySeqEqual` | src/ipc/SharedListen.cc:61-63 | two requests have the same binding identity exactly when their (type, protocol, address) sequences agree |
| `ListenParams.LessIrreflexive` | src/ipc/SharedListen.cc:52-64 | no request sorts before itself |
| `ListenParams.LessTransitive` | src/ipc/SharedListen.cc:52-64 | the order is transitive |
| `ListenParams.LessTrichotomous` | src/ipc/SharedListen.cc:52-64 | the order is asymmetric, and neither request sorts before the other exactly when both have the same type, protocol and address |
| `ListenParams.LessRespectsSameKey` | src/ipc/SharedListen.cc:61-63 | requests with the same type, protocol and address compare the same way against any third request, on either side |
| `ListenParams.LessIgnoresFlagsAndNote` | src/ipc/SharedListen.cc:61-63 | a request whose flags or note alone were changed is not less than the original, in either direction |
| `RequestIds.PresentPrefixBound` | src/ipc/SharedListen.cc:36-41 | a table holding every id below `n` has at least `n` entries, so the scan is bounded by the table size |
| `RequestIds.FindUnusedId` | src/ipc/SharedListen.cc:36-41 | the scan stops, and returns a non-negative id that is absent from the table, with every smaller non-negative id present and the id at most the table size |
| `RequestIds.LowestFreeUnique` | src/ipc/SharedListen.cc:36-41 | the smallest free id is determined by the table: two such ids are equal |
| `RequestIds.ReleasedIdReused` | src/ipc/SharedListen.cc:36-41 | after an id below the smallest free one is erased, that id becomes the smallest free one; erasing a larger id leaves the smallest free one as it was |
| `SharedListen.NewSharedListenRequest` | src/ipc/SharedListen.cc:68-71 | a default-constructed request has requestor id -1, map id -1 and zeroed parameters |
| `SharedListen.UnsetMapIdNeverPending` | src/ipc/SharedListen.cc:68 | the unset map id -1 of a default request never matches an entry of a valid table |
| `SharedListen.Connection.constructor` | src/ipc/SharedListen.cc:93-95 | a connection built around a received descriptor holds that descriptor and nothing else yet: zero address, no flags, not imported |
| `SharedListen.IsConnOpen` | src/ipc/SharedListen.cc:138 | `Comm::IsConnOpen`: the connection is open exactly when its descriptor is non-negative |
| `SharedListen.SharedListenRequestMap.constructor` | src/ipc/SharedListen.cc:31 | the process-wide table starts empty |
| `SharedListen.SharedListenRequestMap.AddToMap` | src/ipc/SharedListen.cc:33-45 | the returned id was the smallest free non-negative id, the table now maps it to `por`, every other entry is unchanged, and the table grew by exactly one |
| `SharedListen.SharedListenRequestMap.JoinSharedListen` | src/ipc/SharedListen.cc:105-123 | the request carries the caller's params, `KidIdentifier` and the freshly allocated smallest free id, and the table gains `{params, callback}` under that id and nothing else |
| `SharedListen.SharedListenRequestMap.SharedListenJoined` | src/ipc/SharedListen.cc:125-157 | an unknown id or a null callback fails with the table and connection untouched. Otherwise exactly that id is erased. An open connection gets the retained address and flags and is imported, and a closed one is left alone. The callback gets the connection, the error number and the retained subscription, and is scheduled |
| `SharedListen.JoinThenJoined` | src/ipc/SharedListen.cc:105-157 | a join followed by its matching answer restores the table, and the callback and an open connection end up with the caller's subscription, address and flags, which the answer itself did not carry; a closed connection is left alone and the callback is scheduled |

## Left out

- Packing and unpacking of `SharedListenRequest` and `SharedListenResponse` (lines 73-102) are left out. They are raw memory copies through the message header, with the descriptor attached. The response is modelled as the record `{conn, errNo, mapId}`.
- `SendMessage` to the coordinator (line 122) is inter-process transport. `JoinSharedListen` returns the request message instead of sending it.
- `comm_import_opened`, `GetAddrInfo`/`FreeAddrInfo` and the socket-type and protocol written into the address info (lines 142-148) are operating-system plumbing. They are recorded only as the connection's `imported` flag.
- `ScheduleCallHere` (line 156) is the asynchronous event queue. It is recorded only as the callback's `scheduled` flag. The `dynamic_cast` to `StartListeningCb` (lines 151-152) is taken to succeed, so the call and its dialer are one object.
- `debugs` logging (lines 117-118, 130-131) is not modelled.
- The `xmemset` zero-initialisation of `OpenListenerParams` (line 49) becomes the function `ZeroParams`, whose fields are all zero. The zero address is modelled as the empty address.
- `KidIdentifier` is a process global. It is passed to `JoinSharedListen` as a parameter.
- The coordinator role (deduplicating and opening sockets) does not appear in `SharedListen.cc`. It is not part of this model.
- `RequestIds.FindUnusedId`: the id is an unbounded integer, while the source's `int id` (line 37) has a fixed width. The scan never passes the table size, so overflow needs 2^31 pending entries and is not modelled.
- `Ip::Address`, `Comm::Connection`, `AsyncCall` and `Subscription` are reduced to the fields used here. Addresses are sequences of integers, subscriptions are integer handles, and the callback pointer is a nullable `StartListeningCb` object.
- `SharedListen.SharedListenRequestMap.SharedListenJoined`: the two `Must` failures are returned as an `Outcome` rather than thrown as an exception.
