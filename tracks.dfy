/** Tracks as the queue sees them: a stable identifier plus display metadata,
    and the lookups by identifier that the queue and the player bridge use. */
module Tracks {

  datatype Option<+T> = None | Some(value: T)

  type TrackId = string

  /** Display metadata; nothing in the queue logic looks inside it. */
  datatype Metadata = Metadata(name: string, title: string, artist: string)

  datatype Track = Track(id: TrackId, meta: Metadata)

  /** `q.some(t => t.id === id)`: scans from the front and holds exactly when
      some position of `q` carries identifier `id`. */
  predicate HasId(q: seq<Track>, id: TrackId)
    ensures HasId(q, id) <==> exists k :: 0 <= k < |q| && q[k].id == id
  {
    q != [] && (q[0].id == id || HasId(q[1..], id))
  }

  /** No two positions of `q` carry the same identifier. */
  ghost predicate DistinctIds(q: seq<Track>)
  {
    forall i, j :: 0 <= i < j < |q| ==> q[i].id != q[j].id
  }

  /** `q.findIndex(t => t.id === id)`: the first position carrying `id`, or -1. */
  function FirstIndex(q: seq<Track>, id: TrackId): (r: int)
    ensures -1 <= r < |q|
    ensures r == -1 <==> !HasId(q, id)
    ensures r != -1 ==> q[r].id == id && forall k :: 0 <= k < r ==> q[k].id != id
  {
    if q == [] then -1
    else if q[0].id == id then 0
    else
      var r := FirstIndex(q[1..], id);
      assert forall k :: 1 <= k < |q| ==> q[k] == q[1..][k - 1];
      if r == -1 then -1 else r + 1
  }

  /** In a queue with distinct identifiers, looking up the identifier of the
      track at `k` finds `k` itself. */
  lemma FirstIndexOfMember(q: seq<Track>, k: int)
    requires DistinctIds(q) && 0 <= k < |q|
    ensures FirstIndex(q, q[k].id) == k
  {
    assert HasId(q, q[k].id);
  }
}
