/** The throttle gate: whether a notification may be scheduled at all, from
    the persisted time of the last successful display. Time is in integer
    milliseconds since the epoch. */
module Throttle {
  import opened Wrappers
  import opened Settings

  const MsPerHour: int := 1000 * 60 * 60

  /** A non-empty string under the storage key: it either parses as a date
      (`Stamp`, its time value in milliseconds) or it does not. */
  datatype Stored = Stamp(ms: int) | Unparsable

  /** The outcome of reading the storage key: the read threw, or it returned
      a value, `None` standing for a missing key or the empty string. */
  datatype StorageRead = ReadFailed | ReadOk(record: Option<Stored>)

  /** The key-value store, reduced to the one key the widget uses, with
      whether reads and writes currently succeed. */
  datatype Storage = Storage(record: Option<Stored>, readable: bool, writable: bool)

  function Read(st: Storage): (r: StorageRead)
    ensures r.ReadOk? <==> st.readable
    ensures r.ReadOk? ==> r.record == st.record
  {
    if st.readable then ReadOk(st.record) else ReadFailed
  }

  /** Records a display at `now`. A failed write is swallowed and leaves the
      store as it was. */
  function MarkShown(st: Storage, now: int): (r: Storage)
    ensures st.writable ==> Read(r) == if st.readable then ReadOk(Some(Stamp(now))) else ReadFailed
    ensures !st.writable ==> r == st
    ensures r.readable == st.readable && r.writable == st.writable
  {
    if st.writable then st.(record := Some(Stamp(now))) else st
  }

  /** Hours elapsed between `last` and `now`, as `shouldShowNotification` computes them
      (with exact rather than floating-point division). */
  ghost function ElapsedHours(last: int, now: int): real {
    (now - last) as real / MsPerHour as real
  }

  /** The gate. With persistence off it opens without reading; a missing or
      empty record and a read that throws open it too; a record that does
      not parse closes it (the elapsed time is not a number, so the
      comparison is false); otherwise it opens exactly when at least
      `minTimeBetween` hours have passed. */
  function ShouldShow(cfg: Config, read: StorageRead, now: int): (r: bool)
    ensures !cfg.saveToStorage ==> r
    ensures read == ReadFailed || read == ReadOk(None) ==> r
    ensures cfg.saveToStorage && read == ReadOk(Some(Unparsable)) ==> !r
    ensures forall last :: cfg.saveToStorage && read == ReadOk(Some(Stamp(last))) ==>
              (r <==> ElapsedHours(last, now) >= cfg.minTimeBetween as real)
  {
    if !cfg.saveToStorage then true
    else match read
      case ReadFailed => true
      case ReadOk(None) => true
      case ReadOk(Some(Unparsable)) => false
      case ReadOk(Some(Stamp(last))) => now - last >= cfg.minTimeBetween * MsPerHour
  }

  /** Once the gate is open it stays open as time moves forward. */
  lemma GateStaysOpen(cfg: Config, read: StorageRead, now: int, later: int)
    requires now <= later && ShouldShow(cfg, read, now)
    ensures ShouldShow(cfg, read, later)
  {
  }

  /** Reading back a fresh stamp: the gate is closed at the moment of the
      display when the interval is positive, and opens again exactly
      `minTimeBetween` hours later (equality counts). */
  lemma GateAfterMark(cfg: Config, st: Storage, now: int)
    requires cfg.saveToStorage && st.readable && st.writable
    ensures var read := Read(MarkShown(st, now));
      && (ShouldShow(cfg, read, now) <==> cfg.minTimeBetween <= 0)
      && ShouldShow(cfg, read, now + cfg.minTimeBetween * MsPerHour)
      && (cfg.minTimeBetween > 0 ==> !ShouldShow(cfg, read, now + cfg.minTimeBetween * MsPerHour - 1))
  {
  }
}
