/**
 * The parameters of a shared listening socket request and the ordering that
 * decides which requests name the same socket (`OpenListenerParams` and its
 * `operator<`).
 */
module ListenParams {

  /** A bind address. Its whole-address comparison is modelled as a
      lexicographic comparison of its components. */
  type Address = seq<int>

  /** The handle of the subscription that will handle accepted connections. */
  type SubscriptionRef = int

  /** The all-zero address a zero-initialised parameter block holds. */
  const ZeroAddress: Address := []

  /** Three-way whole-address comparison: negative, zero or positive as `a`
      sorts before, equal to, or after `b`. */
  function CompareWhole(a: Address, b: Address): (r: int)
    ensures -1 <= r <= 1
    decreases |a|
  {
    if a == [] then (if b == [] then 0 else -1)
    else if b == [] then 1
    else if a[0] != b[0] then (if a[0] < b[0] then -1 else 1)
    else CompareWhole(a[1..], b[1..])
  }

  /** Comparison yields zero exactly on equal addresses. */
  lemma {:induction false} CompareWholeZeroIff(a: Address, b: Address)
    ensures CompareWhole(a, b) == 0 <==> a == b
    decreases |a|
  {
    if a != [] && b != [] && a[0] == b[0] {
      CompareWholeZeroIff(a[1..], b[1..]);
      if a[1..] == b[1..] {
        assert a == [a[0]] + a[1..] && b == [b[0]] + b[1..];
      }
    }
  }

  /** Swapping the operands negates the comparison. */
  lemma {:induction false} CompareWholeAntisymmetric(a: Address, b: Address)
    ensures CompareWhole(a, b) == -CompareWhole(b, a)
    decreases |a|
  {
    if a != [] && b != [] && a[0] == b[0] {
      CompareWholeAntisymmetric(a[1..], b[1..]);
    }
  }

  /** "Sorts before" on addresses is transitive. */
  lemma {:induction false} CompareWholeTransitive(a: Address, b: Address, c: Address)
    requires CompareWhole(a, b) < 0 && CompareWhole(b, c) < 0
    ensures CompareWhole(a, c) < 0
    decreases |a|
  {
    if a != [] && b != [] && c != [] && a[0] == b[0] && b[0] == c[0] {
      CompareWholeTransitive(a[1..], b[1..], c[1..]);
    }
  }

  /** What a caller of `comm_open_sharedListen()` asks for. Only `sockType`,
      `proto` and `addr` decide which socket is meant; `flags`, `fdNote` and
      `handlerSubscription` ride along. */
  datatype OpenListenerParams = OpenListenerParams(
    sockType: int,
    proto: int,
    addr: Address,
    flags: int,
    fdNote: int,
    handlerSubscription: SubscriptionRef)

  /** The parameter block as its constructor leaves it: every field zero. */
  function ZeroParams(): (p: OpenListenerParams)
    ensures p.sockType == 0 && p.proto == 0 && p.addr == ZeroAddress
    ensures p.flags == 0 && p.fdNote == 0 && p.handlerSubscription == 0
  {
    OpenListenerParams(0, 0, ZeroAddress, 0, 0, 0)
  }

  /** `OpenListenerParams::operator<`: socket type first, then protocol, then
      the whole address; flags and the note are not consulted. */
  predicate Less(a: OpenListenerParams, b: OpenListenerParams)
    ensures Less(a, b) ==> a.sockType <= b.sockType
    ensures Less(a, b) && a.sockType == b.sockType ==> a.proto <= b.proto
  {
    if a.sockType != b.sockType then a.sockType < b.sockType
    else if a.proto != b.proto then a.proto < b.proto
    else CompareWhole(a.addr, b.addr) < 0
  }

  /** Two requests name the same socket. */
  predicate SameKey(a: OpenListenerParams, b: OpenListenerParams)
  {
    a.sockType == b.sockType && a.proto == b.proto && a.addr == b.addr
  }

  /** The binding identity written out as one sequence: type, protocol, then
      the address components. */
  function KeySeq(p: OpenListenerParams): (s: seq<int>)
  {
    [p.sockType, p.proto] + p.addr
  }

  /** The order is the plain lexicographic order on the binding identity. */
  lemma LessIsLexicographicOnKey(a: OpenListenerParams, b: OpenListenerParams)
    ensures Less(a, b) <==> CompareWhole(KeySeq(a), KeySeq(b)) < 0
  {
  }

  /** Two parameter blocks have the same identity exactly when their key
      sequences agree. */
  lemma SameKeyIffKeySeqEqual(a: OpenListenerParams, b: OpenListenerParams)
    ensures SameKey(a, b) <==> KeySeq(a) == KeySeq(b)
  {
    if KeySeq(a) == KeySeq(b) {
      assert KeySeq(a)[0] == a.sockType && KeySeq(a)[1] == a.proto && KeySeq(a)[2..] == a.addr;
      assert KeySeq(b)[0] == b.sockType && KeySeq(b)[1] == b.proto && KeySeq(b)[2..] == b.addr;
    }
  }

  /** No request sorts before itself. */
  lemma LessIrreflexive(a: OpenListenerParams)
    ensures !Less(a, a)
  {
    CompareWholeZeroIff(a.addr, a.addr);
  }

  /** The order is transitive. */
  lemma LessTransitive(a: OpenListenerParams, b: OpenListenerParams, c: OpenListenerParams)
    requires Less(a, b) && Less(b, c)
    ensures Less(a, c)
  {
    if a.sockType == b.sockType == c.sockType && a.proto == b.proto == c.proto {
      CompareWholeTransitive(a.addr, b.addr, c.addr);
    }
  }

  /** Exactly one of "before", "after" and "same socket" holds: neither
      sorts before the other precisely when both name the same socket. */
  lemma LessTrichotomous(a: OpenListenerParams, b: OpenListenerParams)
    ensures Less(a, b) ==> !Less(b, a)
    ensures SameKey(a, b) <==> !Less(a, b) && !Less(b, a)
  {
    CompareWholeAntisymmetric(a.addr, b.addr);
    CompareWholeZeroIff(a.addr, b.addr);
  }

  /** Requests with the same identity are interchangeable on either side
      of the order. */
  lemma LessRespectsSameKey(a: OpenListenerParams, a': OpenListenerParams, b: OpenListenerParams)
    requires SameKey(a, a')
    ensures Less(a, b) == Less(a', b)
    ensures Less(b, a) == Less(b, a')
  {
  }

  /** Changing only the flags or the note leaves a request equivalent to
      the original: neither sorts before the other. */
  lemma LessIgnoresFlagsAndNote(a: OpenListenerParams, flags: int, fdNote: int)
    ensures !Less(a, a.(flags := flags, fdNote := fdNote))
    ensures !Less(a.(flags := flags, fdNote := fdNote), a)
  {
    CompareWholeZeroIff(a.addr, a.addr);
  }
}
