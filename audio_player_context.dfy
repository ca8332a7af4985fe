/** The playback bridge: skip forward and back prefer the queue's neighbouring
    track over the playback engine's own ordering, and the queue cursor follows
    whatever track the engine reports as current. */
module AudioPlayerContext {
  import opened Tracks
  import opened QueueContext

  /** The commands the bridge sends to the playback engine. */
  datatype Command = PlayTrack(track: Track) | EngineSkipNext | EngineSkipPrevious

  /** The playback engine, seen only through its current track and the log of
      commands it has received. */
  class Engine {
    var current: Option<Track>
    var log: seq<Command>

    constructor (current: Option<Track>)
      ensures this.current == current && log == []
    {
      this.current := current;
      log := [];
    }

    /** Starts `t`; the engine then reports `t` as its current track. */
    method PlayTrack(t: Track)
      modifies this
      ensures current == Some(t)
      ensures log == old(log) + [Command.PlayTrack(t)]
    {
      current := Some(t);
      log := log + [Command.PlayTrack(t)];
    }

    /** The engine's own skip forward; which track it moves to is its own business. */
    method SkipNext()
      modifies this
      ensures log == old(log) + [EngineSkipNext]
    {
      log := log + [EngineSkipNext];
    }

    /** The engine's own skip back. */
    method SkipPrevious()
      modifies this
      ensures log == old(log) + [EngineSkipPrevious]
    {
      log := log + [EngineSkipPrevious];
    }
  }

  /** `queue.findIndex(t => t.id === current?.id)`: no current track matches nothing. */
  function IndexOfTrack(q: seq<Track>, current: Option<Track>): (r: int)
    ensures -1 <= r < |q|
    ensures r == -1 <==> current.None? || !HasId(q, current.value.id)
    ensures r != -1 ==> q[r].id == current.value.id &&
                        forall k :: 0 <= k < r ==> q[k].id != current.value.id
  {
    match current
    case None => -1
    case Some(t) => FirstIndex(q, t.id)
  }

  /** The cursor the synchronisation effect leaves behind. */
  function SyncedCursor(q: seq<Track>, current: Option<Track>, c: int): (r: int)
    ensures current.Some? && HasId(q, current.value.id) ==>
              0 <= r < |q| && q[r].id == current.value.id &&
              forall k :: 0 <= k < r ==> q[k].id != current.value.id
    ensures current.None? || !HasId(q, current.value.id) ==> r == c
  {
    var i := IndexOfTrack(q, current);
    if i != -1 then i else c
  }

  /** The cursor a queue-driven skip leaves: one `step` from the position of
      the track that was current before the skip, or unchanged if that track
      is not queued. */
  function SteppedCursor(q: seq<Track>, previous: Option<Track>, c: int, step: int): (r: int)
    ensures previous.Some? && HasId(q, previous.value.id) ==>
              r - step == FirstIndex(q, previous.value.id)
    ensures previous.None? || !HasId(q, previous.value.id) ==> r == c
  {
    var j := IndexOfTrack(q, previous);
    if j != -1 then j + step else c
  }

  /** The cursor agrees with the engine: if the engine's track is queued, the
      cursor is on its first position. */
  ghost predicate CursorAgrees(q: seq<Track>, current: Option<Track>, c: int)
  {
    IndexOfTrack(q, current) != -1 ==> c == IndexOfTrack(q, current)
  }

  /** Synchronisation always leaves the cursor agreeing with the engine, and
      keeps a valid cursor valid. */
  lemma SyncEstablishesAgreement(q: seq<Track>, current: Option<Track>, c: int)
    ensures CursorAgrees(q, current, SyncedCursor(q, current, c))
    ensures ValidCursor(q, c) ==> ValidCursor(q, SyncedCursor(q, current, c))
  {
  }

  /** In a queue without duplicate identifiers, once the engine reports the
      track at `k`, synchronisation puts the cursor on `k`. */
  lemma SyncLocatesTrack(q: seq<Track>, k: int, c: int)
    requires DistinctIds(q) && 0 <= k < |q|
    ensures SyncedCursor(q, Some(q[k]), c) == k
  {
    FirstIndexOfMember(q, k);
  }

  /** When the cursor agrees with the engine's track, a queue-driven skip by
      `step` lands the cursor on the track the skip plays. */
  lemma SteppedCursorFollows(q: seq<Track>, c: int, step: int)
    requires DistinctIds(q) && 0 <= c < |q| && 0 <= c + step < |q|
    ensures SteppedCursor(q, Some(q[c]), c, step) == c + step
  {
    FirstIndexOfMember(q, c);
  }

  /** Without that agreement the stepped cursor can leave the queue: with no
      current index, skipping forward plays the first track while the engine's
      previous track sits last, and the cursor steps past the end. */
  lemma SteppedCursorCanLeaveQueue(a: Track, b: Track)
    requires a.id != b.id
    ensures SteppedCursor([a, b], Some(b), -1, 1) == 2
  {
    assert [a, b][1] == b;
  }

  class AudioPlayerBridge {
    const store: QueueStore
    const engine: Engine

    constructor (store: QueueStore, engine: Engine)
      ensures this.store == store && this.engine == engine
    {
      this.store := store;
      this.engine := engine;
    }

    /** Plays the queue's next track if there is one, stepping the cursor from
        the previously current track; otherwise hands over to the engine. */
    method SkipNext()
      modifies store, engine
      ensures store.queue == old(store.queue) && store.panelOpen == old(store.panelOpen)
      ensures old(store.GetNextTrack()).Some? ==>
                engine.log == old(engine.log) + [PlayTrack(old(store.GetNextTrack()).value)] &&
                engine.current == old(store.GetNextTrack()) &&
                store.cur == SteppedCursor(store.queue, old(engine.current), old(store.cur), 1)
      ensures old(store.Valid() && CursorAgrees(store.queue, engine.current, store.cur)) ==>
                store.Valid()
      ensures old(store.GetNextTrack()).None? ==>
                engine.log == old(engine.log) + [EngineSkipNext] &&
                store.cur == old(store.cur)
    {
      var previous := engine.current;
      var next := store.GetNextTrack();
      if next.Some? {
        engine.PlayTrack(next.value);
        var currentIndex := IndexOfTrack(store.queue, previous);
        if currentIndex != -1 {
          store.SetCurrentQueueIndex(currentIndex + 1);
        }
      } else {
        engine.SkipNext();
      }
    }

    /** Plays the queue's previous track if there is one, stepping the cursor
        back from the previously current track; otherwise hands over to the engine. */
    method SkipPrevious()
      modifies store, engine
      ensures store.queue == old(store.queue) && store.panelOpen == old(store.panelOpen)
      ensures old(store.GetPreviousTrack()).Some? ==>
                engine.log == old(engine.log) + [PlayTrack(old(store.GetPreviousTrack()).value)] &&
                engine.current == old(store.GetPreviousTrack()) &&
                store.cur == SteppedCursor(store.queue, old(engine.current), old(store.cur), -1)
      ensures old(store.Valid() && CursorAgrees(store.queue, engine.current, store.cur)) ==>
                store.Valid()
      ensures old(store.GetPreviousTrack()).None? ==>
                engine.log == old(engine.log) + [EngineSkipPrevious] &&
                store.cur == old(store.cur)
    {
      var previous := engine.current;
      var prev := store.GetPreviousTrack();
      if prev.Some? {
        engine.PlayTrack(prev.value);
        var currentIndex := IndexOfTrack(store.queue, previous);
        if currentIndex != -1 {
          store.SetCurrentQueueIndex(currentIndex - 1);
        }
      } else {
        engine.SkipPrevious();
      }
    }

    /** The synchronisation effect: puts the cursor on the engine's current
        track when that track is queued. */
    method SyncQueueIndex()
      modifies store
      ensures store.cur == SyncedCursor(store.queue, engine.current, old(store.cur))
      ensures CursorAgrees(store.queue, engine.current, store.cur)
      ensures store.queue == old(store.queue) && store.panelOpen == old(store.panelOpen)
      ensures old(store.Valid()) ==> store.Valid()
    {
      if engine.current.Some? {
        var index := IndexOfTrack(store.queue, engine.current);
        if index != -1 {
          store.SetCurrentQueueIndex(index);
        }
      }
    }
  }

  /** A client run: the engine reports a queued track played from elsewhere,
      and the cursor follows it; a skip forward then hands over to the engine. */
  method SyncScenario(a: Track, b: Track)
    requires a.id != b.id
  {
    var store := new QueueStore();
    store.AddToQueue(a);
    store.AddToQueue(b);
    store.PlayFromQueue(0);
    var engine := new Engine(Some(b));
    var bridge := new AudioPlayerBridge(store, engine);
    bridge.SyncQueueIndex();
    SyncLocatesTrack([a, b], 1, 0);
    assert store.cur == 1;
    bridge.SkipNext();
    assert engine.log == [EngineSkipNext] && store.cur == 1;
  }
}
