/**
 * The gale WebSocket configuration (ws_config.go): four limits, each given its
 * default by `check` only when it is zero. Durations are integer nanoseconds.
 */
module GaleWSConfig {
  /** time.Second in nanoseconds. */
  const Second := 1_000_000_000

  const DefaultReadTimeout := 10 * Second
  const DefaultMessageBufferSize := 100
  const DefaultMaxConcurrentReads := 10
  const DefaultMaxConcurrentWrites := 10

  class WSConfig {
    var readTimeout: int
    var messageBufferSize: int
    var maxConcurrentReads: int
    var maxConcurrentWrites: int

    constructor (readTimeout: int, messageBufferSize: int, maxConcurrentReads: int, maxConcurrentWrites: int)
      ensures this.readTimeout == readTimeout && this.messageBufferSize == messageBufferSize
      ensures this.maxConcurrentReads == maxConcurrentReads && this.maxConcurrentWrites == maxConcurrentWrites
    {
      this.readTimeout := readTimeout;
      this.messageBufferSize := messageBufferSize;
      this.maxConcurrentReads := maxConcurrentReads;
      this.maxConcurrentWrites := maxConcurrentWrites;
    }

    /** No field is left at zero. */
    predicate Complete()
      reads this
    {
      readTimeout != 0 && messageBufferSize != 0 && maxConcurrentReads != 0 && maxConcurrentWrites != 0
    }

    /**
     * WSConfig.check: every zero field gets its default; every other field,
     * negative ones included, keeps its value. Afterwards nothing is zero, so a
     * second check changes nothing.
     */
    method Check()
      modifies this
      ensures readTimeout == if old(readTimeout) == 0 then DefaultReadTimeout else old(readTimeout)
      ensures messageBufferSize == if old(messageBufferSize) == 0 then DefaultMessageBufferSize else old(messageBufferSize)
      ensures maxConcurrentReads == if old(maxConcurrentReads) == 0 then DefaultMaxConcurrentReads else old(maxConcurrentReads)
      ensures maxConcurrentWrites == if old(maxConcurrentWrites) == 0 then DefaultMaxConcurrentWrites else old(maxConcurrentWrites)
      ensures Complete()
      ensures old(Complete()) ==> unchanged(this)
    {
      if readTimeout == 0 {
        readTimeout := DefaultReadTimeout;
      }
      if messageBufferSize == 0 {
        messageBufferSize := DefaultMessageBufferSize;
      }
      if maxConcurrentReads == 0 {
        maxConcurrentReads := DefaultMaxConcurrentReads;
      }
      if maxConcurrentWrites == 0 {
        maxConcurrentWrites := DefaultMaxConcurrentWrites;
      }
    }
  }

  /** defaultWSConfig: every field at its default, so check leaves it as it is. */
  method DefaultWSConfig() returns (w: WSConfig)
    ensures fresh(w) && w.Complete()
    ensures w.readTimeout == DefaultReadTimeout && w.messageBufferSize == DefaultMessageBufferSize
    ensures w.maxConcurrentReads == DefaultMaxConcurrentReads && w.maxConcurrentWrites == DefaultMaxConcurrentWrites
  {
    w := new WSConfig(DefaultReadTimeout, DefaultMessageBufferSize, DefaultMaxConcurrentReads, DefaultMaxConcurrentWrites);
  }

  /** defaultWSConfig() holds what check makes of a zero WSConfig. */
  method DefaultIsCheckedZero() returns (checked: WSConfig, default: WSConfig)
    ensures fresh(checked) && fresh(default)
    ensures checked.readTimeout == default.readTimeout && checked.messageBufferSize == default.messageBufferSize
    ensures checked.maxConcurrentReads == default.maxConcurrentReads && checked.maxConcurrentWrites == default.maxConcurrentWrites
  {
    checked := new WSConfig(0, 0, 0, 0);
    checked.Check();
    default := DefaultWSConfig();
  }
}
