# Playback queue of nextsound, modelled in Dafny

This project models the playback queue of the nextsound media player. It has two parts.

- **Queue store** (`queue_context.dfy`, module `QueueContext`). This is a class
  `QueueStore` with three fields:
  - the ordered list of tracks (`queue`);
  - the current-index cursor (`cur`), where -1 means "none";
  - the queue panel's visibility (`panelOpen`).

  Its methods are add, remove, reorder, replace, clear, play-at-index, the unchecked
  cursor setter and the panel toggles. Two functions peek at the track after and
  before the cursor. Removal is written as the source's one `splice` call and
  reorder as its two `splice` calls. Pure functions (`Remove`, `Insert`, `Move`, `RemoveCursor`,
  `MoveCursor`) specify them. The lemmas prove the point of the cursor rules: the
  cursor stays on the same track, a reorder is a permutation that keeps the other
  tracks in order, and a reorder undone by the opposite reorder restores both the
  list and the cursor. `Valid()` is the store's invariant: the cursor is -1 or in
  range, and no two queued tracks share an identifier.
- **Playback bridge** (`audio_player_context.dfy`, module `AudioPlayerContext`).
  This is a class `AudioPlayerBridge` over the store and an abstract playback
  `Engine`. The engine is seen only through its current track and a log of the
  commands sent to it (`PlayTrack(t)`, `EngineSkipNext`, `EngineSkipPrevious`).
  - Skipping forward or back plays the queue's neighbouring track when there is
    one. Otherwise it hands over to the engine's own skip.
  - After playing from the queue, the cursor steps from the position of the
    track that was current *before* the skip. The source reads the engine's
    current track as captured before `playTrack` takes effect.
  - The synchronisation effect puts the cursor on the first queue position whose
    identifier matches the engine's current track. In the source it runs
    whenever the engine's track or the queue changes; the model exposes it as
    a method that callers invoke.

`tracks.dfy` (module `Tracks`) holds the track record and `FirstIndex`, the
model of `findIndex` by identifier.

Two points of the code that the model keeps as written:
- `removeFromQueue` has no bounds check, and `splice` counts a negative index
  from the end (`src/context/queueContext.tsx:49`). The model therefore requires a
  valid index; its only caller passes positions of existing rows.
- A queue-driven skip steps from the position of the track that was current
  before the skip (`src/context/audioPlayerContext.tsx:44`), not from the track
  just played.

## Model

| member | source | states |
|---|---|---|
| Tracks.FirstIndex | src/context/audioPlayerContext.tsx:74 | the lookup returns -1 exactly when no queued track has the identifier; otherwise it returns a position holding it, with no earlier position holding it |
| Tracks.FirstIndexOfMember | src/context/audioPlayerContext.tsx:74 | in a queue without duplicate identifiers, looking up the identifier of the track at k returns k |
| Tracks.HasId | src/context/queueContext.tsx:36 | the front-to-back scan holds exactly when some position of the queue carries the identifier |
| QueueContext.RemoveCursor | src/context/queueContext.tsx:52-57 | the removal's cursor rule gives "none" exactly when the cursor was on the removed position or already "none", and otherwise keeps the cursor on the same side of the removed position |
| QueueContext.MoveCursor | src/context/queueContext.tsx:70-76 | the reorder's cursor rule inverts `MoveSource`: the position it gives is where the element at the old cursor ends up |
| QueueContext.At | src/context/queueContext.tsx:113 | reading position k gives the track there when k is in range and none (JavaScript's `undefined`) otherwise |
| QueueContext.Remove | src/context/queueContext.tsx:48-49 | splicing out index i shortens the list by one, keeps the elements before i and shifts the later ones left by one |
| QueueContext.Insert | src/context/queueContext.tsx:67 | splicing x in at i lengthens the list by one, puts x at i, keeps the elements before i and shifts the rest right by one |
| QueueContext.Move | src/context/queueContext.tsx:65-67 | the reorder keeps the length and leaves the element from `from` at `to` |
| QueueContext.MoveAt | src/context/queueContext.tsx:65-67 | every position of the reordered list holds the original element at the in-range position that `MoveSource` names |
| QueueContext.MovePermutes | src/context/queueContext.tsx:65-67 | a reorder is a permutation: the multiset of tracks is unchanged |
| QueueContext.MoveKeepsOthersInOrder | src/context/queueContext.tsx:65-67 | apart from the moved track, the relative order is unchanged: removing it from its new place gives the list without it at its old place |
| QueueContext.MoveRoundTrip | src/context/queueContext.tsx:63-80 | reorder(s, e) followed by reorder(e, s) restores both the list and the cursor |
| QueueContext.MoveCursorFollows | src/context/queueContext.tsx:69-76 | the reorder's cursor rule keeps an in-range cursor on the same track and leaves an out-of-range cursor (including -1) as it is |
| QueueContext.RemoveCursorFollows | src/context/queueContext.tsx:51-57 | when the cursor is not on the removed index, the removal's cursor rule keeps it in range and on the same track |
| QueueContext.RemoveKeepsValidCursor | src/context/queueContext.tsx:51-57 | after a removal the cursor is still -1 or in range |
| QueueContext.RemoveKeepsDistinct | src/context/queueContext.tsx:46-61 | removal keeps identifiers distinct |
| QueueContext.MoveKeepsDistinct | src/context/queueContext.tsx:63-80 | a reorder keeps identifiers distinct |
| QueueContext.AppendKeepsDistinct | src/context/queueContext.tsx:33-44 | appending a track whose identifier is absent keeps identifiers distinct |
| QueueContext.QueueStore.constructor | src/context/queueContext.tsx:29-31 | a new store has an empty queue, cursor -1 and a closed panel, and is valid |
| QueueContext.QueueStore.AddToQueue | src/context/queueContext.tsx:33-44 | the queue is unchanged when a track with the same identifier is queued, otherwise the track is appended; cursor and panel are untouched; validity is kept |
| QueueContext.QueueStore.RemoveFromQueue | src/context/queueContext.tsx:46-61 | the queue loses exactly the element at the index; the cursor decrements if it was after the index, becomes -1 if it was on it, and is otherwise unchanged; a cursor on another track stays on that track; validity is kept |
| QueueContext.QueueStore.ReorderQueue | src/context/queueContext.tsx:63-80 | the queue becomes the reorder of the old queue, with the same multiset; the cursor follows the rule: on the moved track it goes to the end index, between the two indices it shifts by one, otherwise it is unchanged; an in-range cursor stays on its track; validity is kept |
| QueueContext.QueueStore.SetQueue | src/context/queueContext.tsx:82-84 | the list is replaced wholesale; cursor and panel are untouched |
| QueueContext.QueueStore.ClearQueue | src/context/queueContext.tsx:86-89 | the result is always an empty queue with cursor -1, which is valid |
| QueueContext.QueueStore.PlayFromQueue | src/context/queueContext.tsx:91-95 | the cursor becomes the index exactly when the index is within the queue; otherwise nothing changes |
| QueueContext.QueueStore.SetCurrentQueueIndex | src/context/queueContext.tsx:137 | the unchecked setter sets the cursor to any value and changes nothing else |
| QueueContext.QueueStore.ToggleQueuePanel | src/context/queueContext.tsx:97-99 | the panel flag flips; queue and cursor are untouched |
| QueueContext.QueueStore.OpenQueuePanel | src/context/queueContext.tsx:101-103 | the panel flag becomes true; queue and cursor are untouched |
| QueueContext.QueueStore.CloseQueuePanel | src/context/queueContext.tsx:105-107 | the panel flag becomes false; queue and cursor are untouched |
| QueueContext.QueueStore.GetNextTrack | src/context/queueContext.tsx:109-116 | the peek returns a track exactly when cur+1 is a queue position, and that track is queue[cur+1]; with cursor -1 this is the first track; on an empty queue it is none |
| QueueContext.QueueStore.GetPreviousTrack | src/context/queueContext.tsx:118-125 | the peek returns a track exactly when cur-1 is a queue position, and that track is queue[cur-1]; on an empty queue it is none |
| AudioPlayerContext.Engine.PlayTrack | src/context/audioPlayerContext.tsx:42 | the engine logs one play command for the track and reports it as current |
| AudioPlayerContext.Engine.SkipNext | src/context/audioPlayerContext.tsx:50 | the engine logs one skip-forward command of its own |
| AudioPlayerContext.Engine.SkipPrevious | src/context/audioPlayerContext.tsx:67 | the engine logs one skip-back command of its own |
| AudioPlayerContext.IndexOfTrack | src/context/audioPlayerContext.tsx:44 | with no current track nothing matches (-1); otherwise the result is the first position holding the track's identifier, or -1 when there is none |
| AudioPlayerContext.SyncedCursor | src/context/audioPlayerContext.tsx:72-79 | when the engine's track is queued, the cursor is its first position; with no current track, or one that is not queued, the cursor is unchanged |
| AudioPlayerContext.SteppedCursor | src/context/audioPlayerContext.tsx:44-47 | when the previously current track is queued at first position j, the cursor becomes j plus the step; otherwise it is unchanged |
| AudioPlayerContext.SyncEstablishesAgreement | src/context/audioPlayerContext.tsx:72-79 | after synchronisation the cursor agrees with the engine's track, and a cursor that was -1 or in range still is |
| AudioPlayerContext.SyncLocatesTrack | src/context/audioPlayerContext.tsx:72-79 | in a queue without duplicate identifiers, once the engine reports the track at k, the cursor becomes k |
| AudioPlayerContext.SteppedCursorFollows | src/context/audioPlayerContext.tsx:44-47 | when the cursor agrees with the engine's track, a queue-driven skip puts the cursor on the track it plays |
| AudioPlayerContext.SteppedCursorCanLeaveQueue | src/context/audioPlayerContext.tsx:44-47 | without that agreement the stepped cursor can land past the end of the queue (queue [a, b], cursor -1, previous track b gives 2) |
| AudioPlayerContext.AudioPlayerBridge.constructor | src/context/audioPlayerContext.tsx:34-35 | the bridge is wired to the given store and engine |
| AudioPlayerContext.AudioPlayerBridge.SkipNext | src/context/audioPlayerContext.tsx:38-52 | if the queue has a next track t, exactly one PlayTrack(t) is sent and the cursor is stepped +1 from the previously current track; otherwise exactly one engine skip-forward is sent and the cursor is untouched; the queue never changes; validity is kept when the cursor agreed with the engine |
| AudioPlayerContext.AudioPlayerBridge.SkipPrevious | src/context/audioPlayerContext.tsx:55-69 | like SkipNext, but with the previous track, a step of -1 and the engine's skip-back |
| AudioPlayerContext.AudioPlayerBridge.SyncQueueIndex | src/context/audioPlayerContext.tsx:72-79 | the cursor becomes the synchronised cursor and then agrees with the engine; the queue is unchanged; validity is kept |

## Left out

- React machinery is not modelled: state-updater batching, `useCallback`
  dependency lists and stale closures. For example, `removeFromQueue` reads the
  cursor captured in its closure. Every operation is modelled as applied in order
  to the current state. The synchronisation effect is an explicit method, not a
  reaction to a change notification.
- The logging calls, and the guards that throw when a hook is used outside its
  provider, are left out. They carry no data behaviour.
- The queue panel and queue item components are not part of this model. This
  covers rendering, the drag gesture, the Escape-key listener, display
  fallbacks, and the play-from-queue click handler, which only combines
  `PlayFromQueue` with `PlayTrack`.
- The audio engine itself (`useAudioPlayer`) is not part of this model. Playback,
  progress, volume, shuffle, repeat, favourite and minimise are left out. Only the
  engine's current track and the commands sent to it are kept.
- QueueContext.QueueStore.RemoveFromQueue: requires an index inside the queue. The
  source does no bounds check, and JavaScript `splice` counts negative indices
  from the end. Callers only pass indices of existing rows.
- QueueContext.QueueStore.ReorderQueue: requires both indices inside the queue.
  The source does no bounds check. No caller of `reorderQueue` is among the
  modelled files: the drag gesture reorders through `setQueue`
  (`src/components/ui/QueuePanel.tsx:45-47`, `src/components/ui/QueuePanel.tsx:152`).
- QueueContext.QueueStore.SetQueue: promises no validity. A shorter list can leave
  the cursor out of range, and a list with repeated identifiers breaks uniqueness.
  The source does the same.
- QueueContext.QueueStore.SetCurrentQueueIndex: promises no validity, because the
  source's setter is unchecked.
- AudioPlayerContext.AudioPlayerBridge.SkipNext: promises an in-range cursor only
  when the cursor agreed with the engine beforehand.
  `SteppedCursorCanLeaveQueue` shows that it can fail otherwise.
- AudioPlayerContext.AudioPlayerBridge.SkipPrevious: the same applies.
- AudioPlayerContext.AudioPlayerBridge.SyncQueueIndex: the model does not run it
  after queue edits. In the source the effect also depends on `queue`
  (`src/context/audioPlayerContext.tsx:79`). It therefore runs again after every
  queue edit, including the `setQueue` of a drag. When the engine's track is
  queued, that run moves the cursor back onto it.
- AudioPlayerContext.Engine.SkipNext: does not say which track the engine moves
  to on its own skips. That choice belongs to the engine.
- AudioPlayerContext.Engine.SkipPrevious: the same applies.
- Track identifiers are modelled as strings. A missing current track matches no
  queued track. This assumes no queued track lacks an identifier.
