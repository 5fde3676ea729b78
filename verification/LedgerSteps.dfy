/** token/token.go: what one ledger call makes of what it read, before it writes.
    The calls of `Ledger` and the threads of `LedgerThreads` both go by it. */
module LedgerSteps {
  import opened Basics
  import opened Protocol
  import opened Tokens

  /** What loadLocked makes of the read's outcome. */
  function Seen(c: Codec, out: Outcome): Option<seq<Metadata>> {
    match out
    case Got(data) => c.decode(data)
    case Absent => Some([])
    case _ => None
  }

  /** Cleanup writes only if something goes. */
  predicate Idles(op: Op, es: seq<Metadata>) {
    op.Cleanup? && |Apply(op, es)| == |es|
  }

  datatype Decision = Refuse | Rest | Write(bytes: Bytes)

  function Decide(c: Codec, op: Op, out: Outcome): Decision {
    match Seen(c, out)
    case None => Refuse
    case Some(es) =>
      if Idles(op, es) then Rest
      else match c.encode(Apply(op, es))
           case None => Refuse
           case Some(bytes) => Write(bytes)
  }

  /** What a call did about its operation: exactly what its own read called for. */
  predicate Performed(c: Codec, base: string, op: Op, out: Outcome, pc: Pc, ok: bool) {
    match Decide(c, op, out)
    case Refuse => !ok && NothingInstalled(pc)
    case Rest => ok && NothingInstalled(pc)
    case Write(bytes) => if ok then Installed(pc, base, bytes) else NothingInstalled(pc)
  }
}
