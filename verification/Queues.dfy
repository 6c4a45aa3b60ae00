/** The queue that the WAL implements: what its callers may rely on, without segments or bytes. */
module Queues {

  /**
   Pending frames in append order, every frame ever appended, the next number, and the cursor in
   memory and on disk. `sound` says that the checkpoint in memory claims no pending frame as
   acknowledged, `guarded` that the persisted one does not, and `fits` that the persisted one claims
   no more bytes of the newest segment than there are.
   */
  datatype Queue<!F> = Queue(pending: seq<F>, written: set<F>, nextSeq: nat, cursor: int, durable: int,
                             sound: bool, guarded: bool, fits: bool)

  /** Appending makes the newest segment longer, so a checkpoint that did not fit may come to fit. */
  ghost function Append<F(!new)>(q: Queue<F>, fs: seq<F>, fits: bool): Queue<F> {
    q.(pending := q.pending + fs, written := q.written + (set f | f in fs), nextSeq := q.nextSeq + |fs|,
       fits := q.fits || fits)
  }

  /** A commit makes the checkpoint in memory sound, and the persisted one if it is persisted. */
  function Commit<F>(q: Queue<F>, persisted: bool): Queue<F>
    requires q.pending != []
  {
    q.(pending := q.pending[1..],
       durable := if persisted then q.cursor else q.durable,
       sound := true, guarded := q.guarded || persisted, fits := q.fits || persisted)
  }

  /** Persisting protects the pending frames only if the checkpoint in memory does. */
  function MoveCursor<F>(q: Queue<F>, ts: int, fits: bool): Queue<F> {
    q.(cursor := ts, durable := ts, guarded := q.sound, fits := q.sound || fits)
  }

  /**
   A crash followed by a reopen: the cursor falls back to the persisted one, only frames once
   appended come back, no number is skipped, and a guarded queue keeps its pending frames behind
   possibly some older ones. The queue is sound again provided that the persisted checkpoint fitted.
   */
  ghost predicate Reboot<F(!new)>(q: Queue<F>, q': Queue<F>) {
    && q'.cursor == q.durable && q'.durable == q.durable && q'.written == q.written
    && (forall f :: f in q'.pending ==> f in q.written)
    && (q'.pending != [] ==> q'.nextSeq == q.nextSeq)
    && 1 <= q'.nextSeq <= (if q.nextSeq == 0 then 1 else q.nextSeq)
    && (q.guarded ==> exists older: seq<F> :: q'.pending == older + q.pending)
    && (q'.guarded ==> q'.fits)
    && (q.fits ==> q'.sound && (q'.guarded || q'.pending == []))
  }
}
