/** Identifiers and small value types shared by every part of the router model. */
module Types {

  datatype Option<+T> = None | Some(value: T)

  /** One byte on the wire. */
  type Octet = n: nat | n < 256

  type Bytes = seq<Octet>

  /** Times are in nanoseconds. */
  const SECOND: nat := 1_000_000_000

  /** The LSP buffer size every system receives, and the least a circuit must carry. */
  const RECEIVE_BUFFER: nat := 1492
  const MIN_LSP_MTU: nat := 512

  /** A 6-octet IS-IS system identifier, read as an unsigned integer. */
  type SystemId = n: nat | n < 0x1_0000_0000_0000

  /** The two flooding scopes of the protocol. */
  datatype Level = L1 | L2

  /** A topology vertex: a real system (pseudonode octet 0) or a LAN pseudonode. */
  datatype NodeId = NodeId(system: SystemId, pseudonode: Octet)

  /** An LSP identifier: originating node plus fragment number. */
  datatype LspId = LspId(node: NodeId, fragment: Octet)

  /** A masked IP prefix. */
  datatype Prefix = Prefix(v6: bool, address: nat, bits: nat)

  const DEFAULT_V4 := Prefix(false, 0, 0)
  const DEFAULT_V6 := Prefix(true, 0, 0)

  function Min(a: int, b: int): int {
    if a <= b then a else b
  }

  function Max(a: int, b: int): int {
    if a >= b then a else b
  }
}
