/** A conductor as its author describes it, and the ways reading or writing one can fail. */
module IrModel {
  import opened Basics
  import opened Words

  datatype Policy =
    | Limiter(capacity: U32, refillTokens: U32, refillPeriodNs: U64)
    | Timeout(durationNs: U64)
    | Retry(maxAttempts: U32, backoffKind: U8, jitterKind: U8, baseDelayNs: U64, maxDelayNs: U64)
    | Breaker(windowKind: U8, failureRatePercent: U8, minimumCalls: U32, windowSpan: U64, halfOpenMaxCalls: U32,
              halfOpenSuccessThreshold: U32, openDurationNs: U64)

  /** The slot of a policy in guard order: limiter, timeout, retry, breaker. */
  type Kind = k: nat | k < 4

  const KINDS := 4

  function KindOf(p: Policy): Kind {
    match p
    case Limiter(_, _, _) => 0
    case Timeout(_) => 1
    case Retry(_, _, _, _, _) => 2
    case Breaker(_, _, _, _, _, _, _) => 3
  }

  /** The record tag a slot of each kind must carry. */
  function NodeTag(k: Kind): U16 {
    match k
    case 0 => 6
    case 1 => 7
    case 2 => 4
    case _ => 5
  }

  function BodyLen(k: Kind): nat {
    match k
    case 0 => 16
    case 1 => 8
    case 2 => 24
    case _ => 32
  }

  /** A stage's four slots; slot `k` holds a policy of kind `k` or nothing. */
  type StageSpec = s: seq<Option<Policy>> | |s| == KINDS && forall k: Kind :: s[k].Some? ==> KindOf(s[k].value) == k
    witness [None, None, None, None]

  datatype EdgeView = EdgeView(fromOrdinal: U16, toOrdinal: U16, inputIndex: U16)

  datatype RegistrySpec = RegistrySpec(names: seq<seq<U8>>, sorted: seq<U16>)

  datatype ScalarValue = ScalarValue(kind: U8, value: U64)

  datatype Binding = Binding(nodeOrdinal: U16, fieldTag: U16, key: seq<U8>, default: ScalarValue)

  datatype ConductorBlob = ConductorBlob(
    stages: seq<StageSpec>,
    edges: seq<EdgeView>,
    registry: Option<RegistrySpec>,
    config: seq<Binding>)

  datatype IrError =
    | BadMagic
    | UnsupportedVersion(found: U16)
    | Truncated
    | OutOfBounds
    | Misaligned
    | BadTag(tag: U16)
    | OrdinalOutOfRange
    | RegistryUnsorted

  datatype WriteError =
    | BufferTooSmall(needed: nat, available: nat)
    | SpecTooLarge
    | RegistryArity(names: nat, sorted: nat, stages: nat)

  const HEADER_LEN := 16
  const RECORD_HEADER_LEN := 8
  const CONDUCTOR_HEADER_LEN := 24
  const BODY_OFFSET := 24
  const STAGE_ENTRY_LEN := 16
  const EDGE_LEN := 8
  const NAME_ENTRY_LEN := 8
  const SORTED_ENTRY_LEN := 2
  const CONFIG_HEADER_LEN := 8
  const BINDING_LEN := 32
  const VERSION := 1
  const CONDUCTOR_SPEC_TAG := 1
  const MAGIC: seq<U8> := [0x4b, 0x57, 0x49, 0x52]

  /** Slice comparison: bytewise, a proper prefix before its extensions. */
  predicate Less(a: seq<U8>, b: seq<U8>) {
    b != [] && (a == [] || a[0] < b[0] || (a[0] == b[0] && Less(a[1..], b[1..])))
  }

  lemma {:induction false} LessTotal(a: seq<U8>, b: seq<U8>)
    ensures Less(a, b) || Less(b, a) || a == b
    ensures !(Less(a, b) && Less(b, a)) && !Less(a, a)
    decreases |a|
  {
    if a != [] {
      LessTotal(a[1..], a[1..]);
      if b != [] && a[0] == b[0] {
        LessTotal(a[1..], b[1..]);
        assert a == [a[0]] + a[1..] && b == [b[0]] + b[1..];
      }
    }
  }

  /** "Not after" is transitive. */
  lemma {:induction false} LessTrans(a: seq<U8>, b: seq<U8>, c: seq<U8>)
    requires !Less(b, a) && !Less(c, b)
    ensures !Less(c, a)
    ensures Less(a, b) || Less(b, c) ==> Less(a, c)
    decreases |a|
  {
    if a != [] && b != [] && c != [] && a[0] == b[0] == c[0] {
      LessTrans(a[1..], b[1..], c[1..]);
    }
  }
}
