/** Listing the rows of a map that satisfy a condition, smallest rank first, cut at a
    limit: what the ledger's ListOpen and the outbox's ListPending both do. */
module Listing {

  function Chosen<X>(rows: map<string, X>, pick: X -> bool): set<string> {
    set id | id in rows && pick(rows[id])
  }

  /** Chosen rows only, none twice, in rank order. */
  ghost predicate Lists<X>(rows: map<string, X>, pick: X -> bool, rank: X -> int, out: seq<string>) {
    && (forall i :: 0 <= i < |out| ==> out[i] in Chosen(rows, pick))
    && (forall i, j :: 0 <= i < j < |out| ==> out[i] != out[j] && rank(rows[out[i]]) <= rank(rows[out[j]]))
  }

  lemma InsertLists<X>(rows: map<string, X>, pick: X -> bool, rank: X -> int, was: seq<string>, id: string, k: nat,
                       out: seq<string>)
    requires Lists(rows, pick, rank, was) && id in Chosen(rows, pick) && id !in was && k <= |was|
    requires forall j :: 0 <= j < k ==> rank(rows[was[j]]) <= rank(rows[id])
    requires k < |was| ==> rank(rows[id]) <= rank(rows[was[k]])
    requires |out| == |was| + 1 && out[k] == id
    requires forall j :: 0 <= j < k ==> out[j] == was[j]
    requires forall j :: k < j < |out| ==> out[j] == was[j - 1]
    ensures Lists(rows, pick, rank, out)
  {
    forall i, j | 0 <= i < j < |out|
      ensures out[i] != out[j] && rank(rows[out[i]]) <= rank(rows[out[j]])
    {
      var a, b := if i < k then i else i - 1, if j < k then j else j - 1;
    }
  }

  /** One row goes to its place. */
  method Insert<X>(rows: map<string, X>, pick: X -> bool, rank: X -> int, was: seq<string>, id: string)
    returns (out: seq<string>)
    requires Lists(rows, pick, rank, was) && id in Chosen(rows, pick) && id !in was
    ensures Lists(rows, pick, rank, out)
    ensures forall x :: x in out <==> x in was || x == id
  {
    var k := 0;
    while k < |was| && rank(rows[was[k]]) <= rank(rows[id])
      invariant 0 <= k <= |was|
      invariant forall j :: 0 <= j < k ==> rank(rows[was[j]]) <= rank(rows[id])
    {
      k := k + 1;
    }
    out := was[..k] + [id] + was[k..];
    assert was == was[..k] + was[k..];
    InsertLists(rows, pick, rank, was, id, k, out);
  }

  method Collect<X>(rows: map<string, X>, pick: X -> bool, rank: X -> int) returns (out: seq<string>)
    ensures Lists(rows, pick, rank, out)
    ensures forall id :: id in Chosen(rows, pick) <==> id in out
  {
    out := [];
    var todo := rows.Keys;
    while todo != {}
      invariant todo <= rows.Keys
      invariant Lists(rows, pick, rank, out)
      invariant forall id :: id in out <==> id in Chosen(rows, pick) - todo
    {
      var id :| id in todo;
      todo := todo - {id};
      if pick(rows[id]) {
        out := Insert(rows, pick, rank, out, id);
      }
    }
  }

  /** A duplicate-free listing of a set is as long as the set. */
  lemma {:induction false} ListedCount(out: seq<string>, ids: set<string>)
    requires forall i, j :: 0 <= i < j < |out| ==> out[i] != out[j]
    requires forall id :: id in ids <==> id in out
    ensures |out| == |ids|
  {
    if out != [] {
      var last := out[|out| - 1];
      assert forall id :: id in ids - {last} <==> id in out[..|out| - 1];
      ListedCount(out[..|out| - 1], ids - {last});
    }
  }

  /** With a positive limit smaller than what there is, the listing is cut to the rows of
      smallest rank; otherwise it is complete. */
  method List<X>(rows: map<string, X>, pick: X -> bool, rank: X -> int, limit: int) returns (out: seq<string>)
    ensures Lists(rows, pick, rank, out)
    ensures |out| == if 0 < limit < |Chosen(rows, pick)| then limit else |Chosen(rows, pick)|
    ensures limit <= 0 || |Chosen(rows, pick)| <= limit ==> forall id :: id in Chosen(rows, pick) <==> id in out
    ensures forall id, i :: id in Chosen(rows, pick) && id !in out && 0 <= i < |out| ==>
            rank(rows[out[i]]) <= rank(rows[id])
  {
    var all := Collect(rows, pick, rank);
    ListedCount(all, Chosen(rows, pick));
    out := if limit > 0 && |all| > limit then all[..limit] else all;
  }

  method Count<X>(rows: map<string, X>, pick: X -> bool) returns (n: nat)
    ensures n == |Chosen(rows, pick)|
  {
    var todo := rows.Keys;
    n := 0;
    ghost var all := Chosen(rows, pick);
    while todo != {}
      invariant todo <= rows.Keys
      invariant n == |all - todo|
    {
      var id :| id in todo;
      if pick(rows[id]) {
        assert all - (todo - {id}) == all - todo + {id};
        n := n + 1;
      } else {
        assert all - (todo - {id}) == all - todo;
      }
      todo := todo - {id};
    }
    assert all - {} == all;
  }
}
