/** What a class fixes, and the part of a host's memory that its turns work on. */
module Memory {
  import opened Events

  /** What the class and its registration fix. `handles` says which messages have a handler. */
  datatype Config<!S> = Config(
    initial: S,
    reduce: (S, Value) -> S,
    everyN: nat,
    capacity: nat,
    handles: string -> bool)

  /** The fields of a host that a turn works on. */
  datatype Mem<S> = Mem(state: S, currentSeq: int, since: int, dirty: bool, token: int)

  /** The live fold of a committed batch. */
  function FoldMem<S>(cfg: Config<S>, m: Mem<S>, events: seq<Value>, seqNo: int): Mem<S> {
    Mem(Fold(cfg.reduce, m.state, events), seqNo, m.since + |events|, true, m.token)
  }
}
