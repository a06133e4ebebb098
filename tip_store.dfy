/**
 * The client-side tip store of src/contexts/tip-context.tsx: the loaded
 * list of tips, updated after each successful write. The context's copy of
 * `fromSupabase` is the one in TipRows.
 */
module TipStore {
  import opened Wrappers
  import opened Records
  import opened ById
  import TipRows

  function TipId(t: Tip): int { t.id }

  /** The tips of a fetched table, in the order the query returned them; each has a visual explanation. */
  function FromRows(rows: seq<TipRows.TipRow>): (r: seq<Tip>)
    ensures |r| == |rows|
    ensures forall i :: 0 <= i < |rows| ==>
      r[i].id == rows[i].id && r[i].visualExplanation == Some(VisualExplanation(rows[i].imageUrl.GetOr("")))
  {
    seq(|rows|, i requires 0 <= i < |rows| => TipRows.FromRow(Some(rows[i])).value)
  }

  class Store {
    var tips: seq<Tip>
    var loading: bool

    constructor()
      ensures tips == [] && loading
    {
      tips := [];
      loading := true;
    }

    /** The initial fetch: the list on success, unchanged on error; loading ends either way. */
    method Loaded(fetched: Result<seq<TipRows.TipRow>>)
      modifies this
      ensures !loading
      ensures tips == if fetched.Ok? then FromRows(fetched.value) else old(tips)
    {
      if fetched.Ok? {
        tips := FromRows(fetched.value);
      }
      loading := false;
    }

    /** `addTip`: the stored tip goes first once the service returns it. */
    method AddTip(saved: Result<Tip>) returns (r: Result<()>)
      modifies this
      ensures r.Ok? <==> saved.Ok?
      ensures saved.Err? ==> r == Err(saved.message)
      ensures tips == if saved.Ok? then [saved.value] + old(tips) else old(tips)
      ensures loading == old(loading)
    {
      if saved.Err? {
        return Err(saved.message);
      }
      tips := [saved.value] + tips;
      r := Ok(());
    }

    /** `updateTip`: every tip with the id is replaced by the service's answer. */
    method UpdateTip(id: int, saved: Result<Tip>) returns (r: Result<()>)
      modifies this
      ensures r.Ok? <==> saved.Ok?
      ensures saved.Err? ==> r == Err(saved.message)
      ensures tips == if saved.Ok? then ReplaceById(old(tips), TipId, id, saved.value) else old(tips)
      ensures loading == old(loading)
    {
      if saved.Err? {
        return Err(saved.message);
      }
      tips := ReplaceById(tips, TipId, id, saved.value);
      r := Ok(());
    }

    /** `deleteTip`: once the service succeeds, the tips with the id go. */
    method DeleteTip(id: int, deleted: Result<()>) returns (r: Result<()>)
      modifies this
      ensures r == deleted
      ensures tips == if deleted.Ok? then RemoveById(old(tips), TipId, id) else old(tips)
      ensures loading == old(loading)
    {
      if deleted.Ok? {
        tips := RemoveById(tips, TipId, id);
      }
      r := deleted;
    }
  }
}
