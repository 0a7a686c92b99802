/** Lifecycle rows as patches: what a log does to one association is a single patch, whose
    status is the last one written and whose confidence is the largest one offered. */
module Patches {
  import opened Options
  import opened SideLog

  lemma PatchedTwice(a: Assoc, p: Patch, q: Patch)
    ensures Patched(Patched(a, p), q) == Patched(a, Join(p, q))
  {
  }

  lemma PatchAgain(a: Assoc, p: Patch)
    ensures Patched(Patched(a, p), p) == Patched(a, p)
  {
  }

  /** The patch a whole log applies to association `id`. */
  function LogPatch(rows: seq<Row>, id: string): Patch {
    if rows == [] then NO_PATCH
    else Join(if rows[0].Lifecycle? then Effect(rows[0], id) else NO_PATCH, LogPatch(rows[1..], id))
  }

  /** Row r is a lifecycle row that names `id`, as what it acts on or as the replacement. */
  predicate Names(r: Row, id: string) {
    r.Lifecycle? && !r.action.Other? && (r.target == id || Installs(r, id))
  }

  /** The status row r gives an association it names. */
  function StatusGiven(r: Row, id: string): string
    requires r.Lifecycle?
  {
    if Installs(r, id) then "active"
    else match r.action
      case Retract => "retracted"
      case Supersede => "superseded"
      case _ => "active"
  }

  /** The confidence row r offers: reaffirming rows only, and only to their target. */
  predicate Offers(r: Row, id: string, c: real) {
    Names(r, id) && r.target == id && r.action.Reaffirm? && r.confidence == Some(c)
  }

  lemma {:induction false} LogPatchSplit(rows: seq<Row>, more: seq<Row>, id: string)
    ensures LogPatch(rows + more, id) == Join(LogPatch(rows, id), LogPatch(more, id))
  {
    if rows == [] {
      assert rows + more == more;
    } else {
      assert (rows + more)[1..] == rows[1..] + more;
      LogPatchSplit(rows[1..], more, id);
    }
  }

  /** Last writer wins: the status comes from the last row that names the association. */
  lemma {:induction false} LastWriterDecides(rows: seq<Row>, id: string, last: nat)
    requires last < |rows| && Names(rows[last], id)
    requires forall j :: last < j < |rows| ==> !Names(rows[j], id)
    ensures LogPatch(rows, id).status == Some(StatusGiven(rows[last], id))
  {
    if last == 0 {
      NobodyWrites(rows[1..], id);
    } else {
      LastWriterDecides(rows[1..], id, last - 1);
    }
  }

  lemma {:induction false} NobodyWrites(rows: seq<Row>, id: string)
    requires forall j :: 0 <= j < |rows| ==> !Names(rows[j], id)
    ensures LogPatch(rows, id) == NO_PATCH
  {
    if rows != [] {
      assert !Names(rows[0], id);
      NobodyWrites(rows[1..], id);
    }
  }

  /** The confidence raised to is the largest one offered, and None when there is none. */
  lemma {:induction false} ConfidenceIsLargestOffer(rows: seq<Row>, id: string)
    ensures var raised := LogPatch(rows, id).raised;
      && (raised.Some? ==> exists j :: 0 <= j < |rows| && Offers(rows[j], id, raised.value))
      && forall j, c :: 0 <= j < |rows| && Offers(rows[j], id, c) ==> raised.Some? && c <= raised.value
  {
    if rows != [] {
      var raised := LogPatch(rows, id).raised;
      var rest := LogPatch(rows[1..], id).raised;
      ConfidenceIsLargestOffer(rows[1..], id);
      forall j, c | 0 <= j < |rows| && Offers(rows[j], id, c)
        ensures raised.Some? && c <= raised.value
      {
        if j > 0 { assert Offers(rows[1..][j - 1], id, c); }
      }
      if raised.Some? {
        if rest == raised {
          var j :| 0 <= j < |rows[1..]| && Offers(rows[1..][j], id, raised.value);
          assert Offers(rows[j + 1], id, raised.value);
        } else {
          assert Offers(rows[0], id, raised.value);
        }
      }
    }
  }
}
