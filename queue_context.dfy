/** The queue store: an ordered list of tracks, a cursor into it (-1 for
    "none") and the visibility of the queue panel, with the splice-based edits
    that keep the cursor on the same track. */
module QueueContext {
  import opened Tracks

  /* ---------- Specification of the list edits ---------- */

  /** `q.splice(i, 1)` on a copy: the element at `i` taken out. */
  function Remove<T>(q: seq<T>, i: nat): (r: seq<T>)
    requires i < |q|
    ensures |r| == |q| - 1
    ensures forall k :: 0 <= k < i ==> r[k] == q[k]
    ensures forall k :: i <= k < |r| ==> r[k] == q[k + 1]
  {
    q[..i] + q[i + 1..]
  }

  /** `q.splice(i, 0, x)` on a copy: `x` put in so that it sits at `i`. */
  function Insert<T>(q: seq<T>, i: nat, x: T): (r: seq<T>)
    requires i <= |q|
    ensures |r| == |q| + 1 && r[i] == x
    ensures forall k :: 0 <= k < i ==> r[k] == q[k]
    ensures forall k :: i < k < |r| ==> r[k] == q[k - 1]
  {
    q[..i] + [x] + q[i..]
  }

  /** The reorder: the element at `from` spliced out, then spliced back in at `to`. */
  function Move<T>(q: seq<T>, from: nat, to: nat): (r: seq<T>)
    requires from < |q| && to < |q|
    ensures |r| == |q| && r[to] == q[from]
  {
    Insert(Remove(q, from), to, q[from])
  }

  /** The position in the original list whose element a move leaves at `k`. */
  function MoveSource(from: int, to: int, k: int): int
  {
    if k == to then from
    else if from <= k < to then k + 1
    else if to < k <= from then k - 1
    else k
  }

  /** The cursor rule of a removal at `index`: the cursor becomes "none"
      exactly when it was on the removed position or already "none", and
      otherwise stays on the same side of the removed position. */
  function RemoveCursor(index: nat, c: int): (r: int)
    ensures r == -1 <==> c == index || c == -1
    ensures c != index ==> (r < index <==> c < index)
  {
    if index < c then c - 1
    else if index == c then -1
    else c
  }

  /** The cursor rule of a move from `from` to `to`: it inverts `MoveSource`,
      so the position it gives holds, after the move, what `c` held before. */
  function MoveCursor(from: int, to: int, c: int): (r: int)
    ensures MoveSource(from, to, r) == c
  {
    if from == c then to
    else if from < c && to >= c then c - 1
    else if from > c && to <= c then c + 1
    else c
  }

  /** The cursor is "none" or points into `q`. */
  predicate ValidCursor(q: seq<Track>, c: int)
  {
    c == -1 || 0 <= c < |q|
  }

  /** JavaScript's `q[k]`: out of range it reads `undefined`, which callers treat as no track. */
  function At(q: seq<Track>, k: int): (r: Option<Track>)
    ensures r.Some? <==> 0 <= k < |q|
    ensures r.Some? ==> r.value == q[k]
  {
    if 0 <= k < |q| then Some(q[k]) else None
  }

  /* ---------- Properties of the list edits ---------- */

  /** Every element of a moved list comes from the original position `MoveSource` names. */
  lemma MoveAt<T>(q: seq<T>, from: nat, to: nat, k: int)
    requires from < |q| && to < |q| && 0 <= k < |q|
    ensures 0 <= MoveSource(from, to, k) < |q|
    ensures Move(q, from, to)[k] == q[MoveSource(from, to, k)]
  {
  }

  /** A move is a permutation: the same multiset of elements. */
  lemma MovePermutes<T>(q: seq<T>, from: nat, to: nat)
    requires from < |q| && to < |q|
    ensures multiset(Move(q, from, to)) == multiset(q)
  {
    var rest := Remove(q, from);
    assert q == q[..from] + [q[from]] + q[from + 1..];
    assert rest == q[..from] + q[from + 1..];
    assert multiset(rest) + multiset{q[from]} == multiset(q);
    assert Move(q, from, to) == rest[..to] + [q[from]] + rest[to..];
    assert rest == rest[..to] + rest[to..];
  }

  /** A move keeps the relative order of the other elements: taking the moved
      element out again gives the list with it taken out of its old place. */
  lemma MoveKeepsOthersInOrder<T>(q: seq<T>, from: nat, to: nat)
    requires from < |q| && to < |q|
    ensures Remove(Move(q, from, to), to) == Remove(q, from)
  {
    var r := Remove(Move(q, from, to), to);
    assert forall k :: 0 <= k < |r| ==> r[k] == Remove(q, from)[k];
  }

  /** Moving back from `to` to `from` restores the list, and the cursor rule
      applied both ways restores the cursor. */
  lemma MoveRoundTrip<T>(q: seq<T>, from: nat, to: nat, c: int)
    requires from < |q| && to < |q|
    ensures Move(Move(q, from, to), to, from) == q
    ensures MoveCursor(to, from, MoveCursor(from, to, c)) == c
  {
    var once := Move(q, from, to);
    var twice := Move(once, to, from);
    forall k | 0 <= k < |q|
      ensures twice[k] == q[k]
    {
      MoveAt(once, to, from, k);
      MoveAt(q, from, to, MoveSource(to, from, k));
    }
  }

  /** The move's cursor rule leaves a cursor outside the list alone, and
      otherwise keeps it on the same element. */
  lemma MoveCursorFollows<T>(q: seq<T>, from: nat, to: nat, c: int)
    requires from < |q| && to < |q|
    ensures !(0 <= c < |q|) ==> MoveCursor(from, to, c) == c
    ensures 0 <= c < |q| ==> 0 <= MoveCursor(from, to, c) < |q| &&
                              Move(q, from, to)[MoveCursor(from, to, c)] == q[c]
  {
    if 0 <= c < |q| {
      MoveAt(q, from, to, MoveCursor(from, to, c));
    }
  }

  /** The removal's cursor rule keeps a cursor on a surviving element on that element. */
  lemma RemoveCursorFollows<T>(q: seq<T>, index: nat, c: int)
    requires index < |q| && 0 <= c < |q| && c != index
    ensures 0 <= RemoveCursor(index, c) < |q| - 1
    ensures Remove(q, index)[RemoveCursor(index, c)] == q[c]
  {
  }

  /** The cursor invariant survives a removal. */
  lemma RemoveKeepsValidCursor(q: seq<Track>, index: nat, c: int)
    requires index < |q| && ValidCursor(q, c)
    ensures ValidCursor(Remove(q, index), RemoveCursor(index, c))
  {
  }

  /** Removal keeps identifiers distinct. */
  lemma RemoveKeepsDistinct(q: seq<Track>, index: nat)
    requires index < |q| && DistinctIds(q)
    ensures DistinctIds(Remove(q, index))
  {
    var r := Remove(q, index);
    forall i, j | 0 <= i < j < |r|
      ensures r[i].id != r[j].id
    {
      var si := if i < index then i else i + 1;
      var sj := if j < index then j else j + 1;
      assert r[i] == q[si] && r[j] == q[sj] && si < sj;
    }
  }

  /** A move keeps identifiers distinct. */
  lemma MoveKeepsDistinct(q: seq<Track>, from: nat, to: nat)
    requires from < |q| && to < |q| && DistinctIds(q)
    ensures DistinctIds(Move(q, from, to))
  {
    var r := Move(q, from, to);
    forall i, j | 0 <= i < j < |r|
      ensures r[i].id != r[j].id
    {
      MoveAt(q, from, to, i);
      MoveAt(q, from, to, j);
      var si, sj := MoveSource(from, to, i), MoveSource(from, to, j);
      assert si != sj;
      if si < sj { assert q[si].id != q[sj].id; } else { assert q[sj].id != q[si].id; }
    }
  }

  /** Appending a track whose identifier is absent keeps identifiers distinct. */
  lemma AppendKeepsDistinct(q: seq<Track>, t: Track)
    requires DistinctIds(q) && !HasId(q, t.id)
    ensures DistinctIds(q + [t])
  {
    var r := q + [t];
    forall i, j | 0 <= i < j < |r|
      ensures r[i].id != r[j].id
    {
      if j == |q| {
        assert r[i] == q[i];
      }
    }
  }

  /* ---------- The store ---------- */

  class QueueStore {
    var queue: seq<Track>
    var cur: int
    var panelOpen: bool

    /** The store's invariant: a cursor that is "none" or in range, and no
        identifier twice in the queue. */
    ghost predicate Valid()
      reads this
    {
      ValidCursor(queue, cur) && DistinctIds(queue)
    }

    /** A fresh store: empty queue, no current index, panel closed. */
    constructor ()
      ensures queue == [] && cur == -1 && !panelOpen
      ensures Valid()
    {
      queue := [];
      cur := -1;
      panelOpen := false;
    }

    /** Appends `track` unless a track with its identifier is already queued. */
    method AddToQueue(track: Track)
      modifies this
      ensures HasId(old(queue), track.id) ==> queue == old(queue)
      ensures !HasId(old(queue), track.id) ==> queue == old(queue) + [track]
      ensures cur == old(cur) && panelOpen == old(panelOpen)
      ensures old(Valid()) ==> Valid()
    {
      if HasId(queue, track.id) {
        return;
      }
      if DistinctIds(queue) {
        AppendKeepsDistinct(queue, track);
      }
      queue := queue + [track];
    }

    /** Splices out the element at `index` and moves the cursor with its track. */
    method RemoveFromQueue(index: int)
      requires 0 <= index < |queue|
      modifies this
      ensures queue == Remove(old(queue), index)
      ensures cur == RemoveCursor(index, old(cur))
      ensures old(cur) == index ==> cur == -1
      ensures old(0 <= cur < |queue|) && old(cur) != index ==>
                0 <= cur < |queue| && queue[cur] == old(queue[cur])
      ensures panelOpen == old(panelOpen)
      ensures old(Valid()) ==> Valid()
    {
      ghost var q, c := queue, cur;
      var newQueue := queue[..index] + queue[index + 1..];
      if index < cur {
        cur := cur - 1;
      } else if index == cur {
        cur := -1;
      }
      queue := newQueue;
      if 0 <= c < |q| && c != index {
        RemoveCursorFollows(q, index, c);
      }
      if ValidCursor(q, c) {
        RemoveKeepsValidCursor(q, index, c);
      }
      if DistinctIds(q) {
        RemoveKeepsDistinct(q, index);
      }
    }

    /** Moves the element at `startIndex` to `endIndex` and keeps the cursor on its track. */
    method ReorderQueue(startIndex: int, endIndex: int)
      requires 0 <= startIndex < |queue| && 0 <= endIndex < |queue|
      modifies this
      ensures queue == Move(old(queue), startIndex, endIndex)
      ensures cur == MoveCursor(startIndex, endIndex, old(cur))
      ensures multiset(queue) == multiset(old(queue))
      ensures old(0 <= cur < |queue|) ==> 0 <= cur < |queue| && queue[cur] == old(queue[cur])
      ensures !old(0 <= cur < |queue|) ==> cur == old(cur)
      ensures panelOpen == old(panelOpen)
      ensures old(Valid()) ==> Valid()
    {
      ghost var q, c := queue, cur;
      var newQueue := queue[..startIndex] + queue[startIndex + 1..];
      var removed := queue[startIndex];
      newQueue := newQueue[..endIndex] + [removed] + newQueue[endIndex..];
      if startIndex == cur {
        cur := endIndex;
      } else if startIndex < cur && endIndex >= cur {
        cur := cur - 1;
      } else if startIndex > cur && endIndex <= cur {
        cur := cur + 1;
      }
      queue := newQueue;
      MovePermutes(q, startIndex, endIndex);
      MoveCursorFollows(q, startIndex, endIndex, c);
      if DistinctIds(q) {
        MoveKeepsDistinct(q, startIndex, endIndex);
      }
    }

    /** Replaces the whole list; the cursor is left as it was. */
    method SetQueue(newQueue: seq<Track>)
      modifies this
      ensures queue == newQueue
      ensures cur == old(cur) && panelOpen == old(panelOpen)
    {
      queue := newQueue;
    }

    /** Empties the queue and clears the cursor. */
    method ClearQueue()
      modifies this
      ensures queue == [] && cur == -1
      ensures panelOpen == old(panelOpen)
      ensures Valid()
    {
      queue := [];
      cur := -1;
    }

    /** Sets the cursor to `index` when it is a position of the queue; otherwise does nothing. */
    method PlayFromQueue(index: int)
      modifies this
      ensures 0 <= index < |queue| ==> cur == index
      ensures !(0 <= index < |queue|) ==> cur == old(cur)
      ensures queue == old(queue) && panelOpen == old(panelOpen)
      ensures old(Valid()) ==> Valid()
    {
      if index >= 0 && index < |queue| {
        cur := index;
      }
    }

    /** The unchecked cursor setter used for synchronisation. */
    method SetCurrentQueueIndex(index: int)
      modifies this
      ensures cur == index
      ensures queue == old(queue) && panelOpen == old(panelOpen)
    {
      cur := index;
    }

    method ToggleQueuePanel()
      modifies this
      ensures panelOpen == !old(panelOpen)
      ensures queue == old(queue) && cur == old(cur)
    {
      panelOpen := !panelOpen;
    }

    method OpenQueuePanel()
      modifies this
      ensures panelOpen
      ensures queue == old(queue) && cur == old(cur)
    {
      panelOpen := true;
    }

    method CloseQueuePanel()
      modifies this
      ensures !panelOpen
      ensures queue == old(queue) && cur == old(cur)
    {
      panelOpen := false;
    }

    /** The track after the cursor, if the queue has one there. With no
        current index (-1) this is the first track. */
    function GetNextTrack(): (r: Option<Track>)
      reads this
      ensures queue == [] ==> r == None
      ensures r.Some? <==> 0 <= cur + 1 < |queue|
      ensures r.Some? ==> r.value == queue[cur + 1]
    {
      if |queue| == 0 then None
      else if cur + 1 < |queue| then At(queue, cur + 1)
      else None
    }

    /** The track before the cursor, if the queue has one there. */
    function GetPreviousTrack(): (r: Option<Track>)
      reads this
      ensures queue == [] ==> r == None
      ensures r.Some? <==> 0 <= cur - 1 < |queue|
      ensures r.Some? ==> r.value == queue[cur - 1]
    {
      if |queue| == 0 then None
      else if cur - 1 >= 0 then At(queue, cur - 1)
      else None
    }
  }

  /** Client runs of the store's operations. */
  method EmptyQueueScenario(t: Track)
  {
    var s := new QueueStore();
    assert s.GetNextTrack() == None && s.GetPreviousTrack() == None;
    s.PlayFromQueue(0);
    assert s.cur == -1;
    s.AddToQueue(t);
    assert HasId(s.queue, t.id) by { assert s.queue[0] == t; }
    s.AddToQueue(t);
    assert s.queue == [t];
  }

  method RemoveScenario(a: Track, b: Track, c: Track)
  {
    var s := new QueueStore();
    s.SetQueue([a, b, c]);
    s.PlayFromQueue(1);
    s.RemoveFromQueue(0);
    assert s.queue == [b, c] && s.cur == 0;
  }

  method ReorderScenario(a: Track, b: Track, c: Track)
  {
    var s := new QueueStore();
    s.SetQueue([a, b, c]);
    s.PlayFromQueue(0);
    s.ReorderQueue(0, 2);
    assert s.queue == [b, c, a] && s.cur == 2;
    MoveRoundTrip([a, b, c], 0, 2, 0);
    s.ReorderQueue(2, 0);
    assert s.queue == [a, b, c] && s.cur == 0;
  }
}
