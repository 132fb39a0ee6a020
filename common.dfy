/**
 * Shared vocabulary of the fixture model: optional values and results, the
 * exceptions the fixture reacts to, the Linux errno values it compares
 * against, address families, and network blocks as opaque values.
 */
module Common {

  datatype Option<+T> = None | Some(value: T)

  datatype Result<+R, +E> = Success(value: R) | Failure(error: E)

  /** Linux errno values the fixture tests for. */
  const ENOENT: int := 2
  const EPERM: int := 1
  const ENODEV: int := 19
  const EOPNOTSUPP: int := 95

  /** Linux address families. */
  const AF_INET: int := 2
  const AF_INET6: int := 10

  /**
   * The exceptions that reach the fixture. In Python NotImplementedError is a
   * subclass of RuntimeError; the guards honour that. `args` is the tuple the
   * exception was raised with.
   */
  datatype Exc =
    | NetlinkError(code: int)
    | FileNotFoundError
    | RuntimeError(args: seq<string>)
    | NotImplementedError(args: seq<string>)
    | AttributeError
    | IndexError
    | KeyError
    | ValueError
    | OtherError(name: string)

  /** `isinstance(e, RuntimeError)` */
  predicate IsRuntimeError(e: Exc) {
    e.RuntimeError? || e.NotImplementedError?
  }

  /**
   * A network block handed out by the global allocator: its network address
   * as text, its prefix length and its number of addresses. Iterating or
   * indexing a block yields `Address(block, offset)` for offsets below `size`.
   */
  datatype Block = Block(network: string, prefixlen: nat, size: nat)

  datatype Address = Address(block: Block, offset: nat)

  /**
   * `[x for x in net]`: every address of the block, in order, the network
   * and broadcast addresses included (iteration, not `net.hosts()`).
   */
  function Addresses(b: Block): (r: seq<Address>)
    ensures |r| == b.size
    ensures forall i :: 0 <= i < |r| ==> r[i] == Address(b, i)
  {
    seq(b.size, i requires 0 <= i < b.size => Address(b, i))
  }

  /** Python's `xs[r]` on a list of length n: negative indices count from the end. */
  function PyIndex(r: int, n: nat): (k: Option<nat>)
    ensures k.Some? <==> -(n as int) <= r < n
    ensures k.Some? ==> k.value < n && (k.value == r || k.value == n + r)
  {
    if 0 <= r < n then Some(r)
    else if -(n as int) <= r < 0 then Some(n + r)
    else None
  }
}
