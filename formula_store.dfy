/**
 * The client-side formula store of src/contexts/formula-context.tsx: the
 * loaded list of formulas, the signed-in user and the set of bookmarked
 * formula ids. Backend answers (the service calls and the bookmark table)
 * are parameters.
 */
module FormulaStore {
  import opened Wrappers
  import opened Records
  import opened Seqs
  import opened ById
  import FormulaRows

  function FormulaId(f: Formula): int { f.id }

  /** The bookmark set after a toggle: the id leaves if present and joins if absent. */
  function Toggled(ids: set<int>, id: int): (r: set<int>)
    ensures id in r <==> id !in ids
    ensures forall k :: k != id ==> (k in r <==> k in ids)
  {
    if id in ids then ids - {id} else ids + {id}
  }

  /** Two toggles of the same id restore the set. */
  lemma ToggleTwice(ids: set<int>, id: int)
    ensures Toggled(Toggled(ids, id), id) == ids
  {
  }

  /** `formulas.filter(f => bookmarkedIds.has(f.id))`. */
  function Bookmarked(formulas: seq<Formula>, ids: set<int>): (r: seq<Formula>)
    ensures forall f :: f in r <==> f in formulas && f.id in ids
  {
    Filter(formulas, (f: Formula) => f.id in ids)
  }

  /** The bookmarked formulas keep the list order. */
  lemma BookmarkedInOrder(formulas: seq<Formula>, ids: set<int>)
    ensures IsSubsequence(Bookmarked(formulas, ids), formulas)
  {
    FilterIsSubsequence(formulas, (f: Formula) => f.id in ids);
  }

  /** The formulas of a fetched table, in the order the query returned them. */
  function FromRows(rows: seq<FormulaRows.FormulaRow>): (r: seq<Formula>)
    ensures |r| == |rows| && forall i :: 0 <= i < |rows| ==> r[i].id == rows[i].id
  {
    seq(|rows|, i requires 0 <= i < |rows| => FormulaRows.FromRow(Some(rows[i])).value)
  }

  class Store {
    var formulas: seq<Formula>
    var loading: bool
    /** The signed-in user's id, if any. */
    var user: Option<string>
    var bookmarkedIds: set<int>

    /** Without a user nothing is bookmarked. */
    predicate Valid()
      reads this
    {
      user.None? ==> bookmarkedIds == {}
    }

    constructor()
      ensures Valid()
      ensures formulas == [] && loading && user.None? && bookmarkedIds == {}
    {
      formulas := [];
      loading := true;
      user := None;
      bookmarkedIds := {};
    }

    /** The initial fetch: the list on success, unchanged on error; loading ends either way. */
    method Loaded(fetched: Result<seq<FormulaRows.FormulaRow>>)
      modifies this
      requires Valid()
      ensures Valid()
      ensures !loading && user == old(user) && bookmarkedIds == old(bookmarkedIds)
      ensures formulas == if fetched.Ok? then FromRows(fetched.value) else old(formulas)
    {
      if fetched.Ok? {
        formulas := FromRows(fetched.value);
      }
      loading := false;
    }

    /** The bookmark effect on a user change: the user's stored ids, or none without a user. */
    method UserChanged(u: Option<string>, storedIds: seq<int>)
      modifies this
      ensures Valid()
      ensures user == u && formulas == old(formulas) && loading == old(loading)
      ensures bookmarkedIds == if u.Some? then set k | k in storedIds else {}
    {
      user := u;
      if u.Some? {
        bookmarkedIds := set k | k in storedIds;
      } else {
        bookmarkedIds := {};
      }
    }

    /** `addFormula`: the stored formula goes first once the service returns it. */
    method AddFormula(saved: Result<Formula>) returns (r: Result<Formula>)
      modifies this
      requires Valid()
      ensures Valid()
      ensures r == saved
      ensures formulas == if saved.Ok? then [saved.value] + old(formulas) else old(formulas)
      ensures user == old(user) && bookmarkedIds == old(bookmarkedIds) && loading == old(loading)
    {
      if saved.Ok? {
        formulas := [saved.value] + formulas;
      }
      r := saved;
    }

    /** `updateFormula`: every formula with the id is replaced by the service's answer. */
    method UpdateFormula(id: int, saved: Result<Formula>) returns (r: Result<()>)
      modifies this
      requires Valid()
      ensures Valid()
      ensures r.Ok? <==> saved.Ok?
      ensures saved.Err? ==> r == Err(saved.message)
      ensures formulas == if saved.Ok? then ReplaceById(old(formulas), FormulaId, id, saved.value) else old(formulas)
      ensures user == old(user) && bookmarkedIds == old(bookmarkedIds) && loading == old(loading)
    {
      if saved.Err? {
        return Err(saved.message);
      }
      formulas := ReplaceById(formulas, FormulaId, id, saved.value);
      r := Ok(());
    }

    /** `deleteFormula`: once the service succeeds, the formulas with the id go. */
    method DeleteFormula(id: int, deleted: Result<()>) returns (r: Result<()>)
      modifies this
      requires Valid()
      ensures Valid()
      ensures r == deleted
      ensures formulas == if deleted.Ok? then RemoveById(old(formulas), FormulaId, id) else old(formulas)
      ensures user == old(user) && bookmarkedIds == old(bookmarkedIds) && loading == old(loading)
    {
      if deleted.Ok? {
        formulas := RemoveById(formulas, FormulaId, id);
      }
      r := deleted;
    }

    /** `isBookmarked(id)`. */
    function IsBookmarked(id: int): (b: bool)
      reads this
      requires Valid()
      ensures b <==> id in bookmarkedIds
      ensures user.None? ==> !b
    {
      id in bookmarkedIds
    }

    /** `bookmarkedFormulas`. */
    function BookmarkedFormulas(): (r: seq<Formula>)
      reads this
      ensures forall f :: f in r <==> f in formulas && f.id in bookmarkedIds
    {
      Bookmarked(formulas, bookmarkedIds)
    }

    /**
     * `toggleBookmark(id)`: nothing without a user; otherwise the backend
     * removes or adds the bookmark and, if it succeeds, the set follows.
     */
    method ToggleBookmark(id: int, backend: Result<()>) returns (r: Result<()>)
      modifies this
      requires Valid()
      ensures Valid()
      ensures user.None? ==> r == Ok(()) && bookmarkedIds == old(bookmarkedIds)
      ensures user.Some? ==> r == backend
      ensures user.Some? && backend.Ok? ==> bookmarkedIds == Toggled(old(bookmarkedIds), id)
      ensures backend.Err? ==> bookmarkedIds == old(bookmarkedIds)
      ensures formulas == old(formulas) && user == old(user) && loading == old(loading)
    {
      if user.None? {
        return Ok(());
      }
      var currentlyBookmarked := IsBookmarked(id);
      if backend.Err? {
        return backend;
      }
      if currentlyBookmarked {
        bookmarkedIds := bookmarkedIds - {id};
      } else {
        bookmarkedIds := bookmarkedIds + {id};
      }
      r := backend;
    }
  }

  /** Toggling twice with a user and a healthy backend leaves the bookmarks as they were. */
  method ToggleTwiceRestores(s: Store, id: int)
    modifies s
    requires s.Valid() && s.user.Some?
    ensures s.Valid() && s.bookmarkedIds == old(s.bookmarkedIds)
  {
    var _ := s.ToggleBookmark(id, Ok(()));
    var _ := s.ToggleBookmark(id, Ok(()));
    ToggleTwice(old(s.bookmarkedIds), id);
  }
}
