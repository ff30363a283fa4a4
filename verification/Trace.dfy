/** Trace records exchanged between the DRM interposer, the agent and the broker. */
module Trace {
  const SEQUENCE_RANGE := 0x1_0000_0000

  /** The next 32-bit sequence number. */
  function Following(sequence: nat): nat
  {
    if sequence + 1 < SEQUENCE_RANGE then sequence + 1 else 0
  }

  datatype Phase = Loaded | Before | Detail | After

  datatype Request =
    | ReqNone
    | ReqSetCrtc
    | ReqSetProperty
    | ReqObjGetProperties
    | ReqAtomic
    | ReqOther(code: nat)

  datatype DetailName =
    | Unnamed
    | SetCrtcConnector
    | AtomicProperty
    | AtomicTruncated
    | ObjectProperty
    | ObjectPropertiesTruncated
    | SuppressedConnectorNoop
    | FallbackReject
    | FallbackMode
    | PageFlipFallback

  datatype Args = Args(a0: nat, a1: nat, a2: nat, a3: nat)

  datatype Record = Record(
    phase: Phase,
    sequence: nat,
    request: Request,
    name: DetailName,
    args: Args,
    result: int)
}
