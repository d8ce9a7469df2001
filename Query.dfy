/** `findOne(filter)` over a collection whose documents are keyed by ascending
    ids: the database returns documents in natural order, which for these
    insert-only collections is id order, so `findOne` yields the matching
    document with the smallest id. */
module Query {
  import opened Outcomes

  /** The smallest id below `bound` whose document satisfies `filter`. */
  function FirstBelow<T>(docs: map<nat, T>, filter: T -> bool, bound: nat): (r: Option<nat>)
    ensures r.Some? ==> r.value < bound && r.value in docs && filter(docs[r.value])
    ensures r.Some? ==> forall j: nat :: j < r.value && j in docs ==> !filter(docs[j])
    ensures r.None? ==> forall j: nat :: j < bound && j in docs ==> !filter(docs[j])
  {
    if bound == 0 then None
    else
      match FirstBelow(docs, filter, bound - 1)
      case Some(i) => Some(i)
      case None => if bound - 1 in docs && filter(docs[bound - 1]) then Some(bound - 1) else None
  }

  /** When every id lies below the bound, `FirstBelow` finds a document exactly
      when one matches. */
  lemma FirstBelowFinds<T>(docs: map<nat, T>, filter: T -> bool, bound: nat)
    requires forall j :: j in docs ==> j < bound
    ensures FirstBelow(docs, filter, bound).Some? <==> exists j :: j in docs && filter(docs[j])
  {
  }

  /** `find(filter)`: the documents that satisfy the filter, under their ids. */
  function Matching<T>(docs: map<nat, T>, filter: T -> bool): (r: map<nat, T>)
    ensures forall j :: j in r <==> j in docs && filter(docs[j])
    ensures forall j :: j in r ==> r[j] == docs[j]
  {
    map j | j in docs && filter(docs[j]) :: docs[j]
  }
}
