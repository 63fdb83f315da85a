/**
 * The document store's query semantics, shared by the chat relay and the
 * account controller. A collection is a sequence of documents whose index is
 * the document id; ids are handed out in creation order. `find` is taken to
 * list its matches in index order, and `findOne` (or `find(...)[0]`) to pick
 * the first of them; the store itself does not promise an order.
 */
module Query {

  datatype Option<T> = None | Some(value: T)

  /** The id of the first document (in index order) that satisfies `p`. */
  function FirstWhere<T>(docs: seq<T>, p: T -> bool): (r: Option<nat>)
    ensures r.Some? ==> r.value < |docs| && p(docs[r.value])
    ensures r.Some? ==> forall j :: 0 <= j < r.value ==> !p(docs[j])
    ensures r.None? <==> forall j :: 0 <= j < |docs| ==> !p(docs[j])
  {
    if |docs| == 0 then None
    else match FirstWhere(docs[..|docs| - 1], p)
      case Some(i) => Some(i)
      case None => if p(docs[|docs| - 1]) then Some(|docs| - 1) else None
  }

  /** The ids of all documents that satisfy `p`, in index order. */
  function AllWhere<T>(docs: seq<T>, p: T -> bool): (r: seq<nat>)
    ensures forall i :: i in r <==> 0 <= i < |docs| && p(docs[i])
    ensures forall a, b :: 0 <= a < b < |r| ==> r[a] < r[b]
  {
    if |docs| == 0 then []
    else
      var front := AllWhere(docs[..|docs| - 1], p);
      assert forall k :: 0 <= k < |front| ==> front[k] in front && front[k] < |docs| - 1;
      if p(docs[|docs| - 1]) then front + [|docs| - 1] else front
  }

  /** Appending a document that does not match leaves the first match where it was. */
  lemma {:induction false} FirstWhereAppend<T>(docs: seq<T>, d: T, p: T -> bool)
    ensures FirstWhere(docs + [d], p) ==
              if FirstWhere(docs, p).Some? then FirstWhere(docs, p)
              else if p(d) then Some(|docs|) else None
  {
    assert (docs + [d])[..|docs|] == docs;
  }

  /** Two predicates that agree on every document pick the same first match. */
  lemma {:induction false} FirstWhereAgree<T>(docs: seq<T>, p: T -> bool, q: T -> bool)
    requires forall j :: 0 <= j < |docs| ==> p(docs[j]) == q(docs[j])
    ensures FirstWhere(docs, p) == FirstWhere(docs, q)
  {
  }
}
