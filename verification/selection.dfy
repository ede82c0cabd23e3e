/**
 * Selection lists of ids, toggled one id at a time:
 * `list.includes(id) ? list.filter(x => x !== id) : [...list, id]`.
 * The trip form, the archive form and the cruise planner all share this rule.
 */
module Selection {
  import opened Common

  /** `ids.filter(x => x !== id)`. */
  function RemoveAll(ids: seq<string>, id: string): (r: seq<string>)
    ensures forall x :: x in r <==> x in ids && x != id
    ensures forall x :: x != id ==> multiset(r)[x] == multiset(ids)[x]
    ensures IsSubsequence(r, ids)
    decreases |ids|
  {
    if |ids| == 0 then []
    else
      var init := ids[..|ids| - 1];
      var rest := RemoveAll(init, id);
      assert ids == init + [ids[|ids| - 1]];
      if ids[|ids| - 1] == id then
        SubsequenceOfInit(rest, ids);
        rest
      else
        assert (rest + [ids[|ids| - 1]])[..|rest|] == rest;
        rest + [ids[|ids| - 1]]
  }

  /** One click on an id: select it when absent, deselect every copy when present. */
  function Toggle(ids: seq<string>, id: string): (r: seq<string>)
    ensures id in r <==> id !in ids
    ensures id !in ids ==> r == ids + [id]
    ensures id in ids ==> IsSubsequence(r, ids)
    ensures forall x :: x != id ==> multiset(r)[x] == multiset(ids)[x]
  {
    if id in ids then RemoveAll(ids, id) else ids + [id]
  }

  /** Removing an id that is not there changes nothing. */
  lemma {:induction false} RemoveAbsent(ids: seq<string>, id: string)
    requires id !in ids
    ensures RemoveAll(ids, id) == ids
    decreases |ids|
  {
    if |ids| > 0 {
      RemoveAbsent(ids[..|ids| - 1], id);
      assert ids == ids[..|ids| - 1] + [ids[|ids| - 1]];
    }
  }

  /** Toggling an id twice, starting from a list without it, restores the list. */
  lemma ToggleTwiceRestores(ids: seq<string>, id: string)
    requires id !in ids
    ensures Toggle(Toggle(ids, id), id) == ids
  {
    var once := ids + [id];
    assert once[..|once| - 1] == ids;
    RemoveAbsent(ids, id);
  }

  /** Filtering keeps a duplicate-free list duplicate-free. */
  lemma {:induction false} RemoveAllKeepsDistinct(ids: seq<string>, id: string)
    requires Distinct(ids)
    ensures Distinct(RemoveAll(ids, id))
    decreases |ids|
  {
    if |ids| > 0 {
      var init := ids[..|ids| - 1];
      RemoveAllKeepsDistinct(init, id);
      var last := ids[|ids| - 1];
      if last != id {
        assert last !in init;
        AppendFreshKeepsDistinct(RemoveAll(init, id), last);
      }
    }
  }

  lemma AppendFreshKeepsDistinct(s: seq<string>, x: string)
    requires Distinct(s) && x !in s
    ensures Distinct(s + [x])
  {
  }

  /** Toggling never introduces a duplicate. */
  lemma ToggleKeepsDistinct(ids: seq<string>, id: string)
    requires Distinct(ids)
    ensures Distinct(Toggle(ids, id))
  {
    if id in ids {
      RemoveAllKeepsDistinct(ids, id);
    } else {
      AppendFreshKeepsDistinct(ids, id);
    }
  }
}
