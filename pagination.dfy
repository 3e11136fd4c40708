/** The list's paging state: the offset of the first Pokémon shown, the size of the
    catalog reported by the last page load, and the handlers that move between
    pages, load a page and react to the search box. */
module Pagination {
  import opened Search

  /** `limit`: the number of Pokémon per page. */
  const PageSize: int := 48

  /** The numbers of the page label `first - last de total`. */
  datatype PageLabel = PageLabel(first: int, last: int, total: int)

  function Min(x: int, y: int): int {
    if x <= y then x else y
  }

  function Max(x: int, y: int): int {
    if x >= y then x else y
  }

  /** The label after a load at `offset` of a catalog of `total` Pokémon. */
  function Label(offset: int, total: int): (l: PageLabel)
    ensures 0 <= offset && 0 <= total ==> 0 <= l.last <= total
  {
    PageLabel(offset + 1, Min(offset + PageSize, total), total)
  }

  /** The number of Pokémon a list request at `offset` returns from a catalog of
      `total`. */
  function PageCount(offset: nat, total: nat): nat {
    if offset >= total then 0 else Min(PageSize, total - offset)
  }

  /** On a page inside the catalog the label counts from one, never runs past the
      catalog, and spans exactly the Pokémon the page holds. */
  lemma LabelWindow(offset: nat, total: nat)
    requires offset < total
    ensures 1 <= Label(offset, total).first <= Label(offset, total).last <= total
    ensures Label(offset, total).last - Label(offset, total).first + 1 == PageCount(offset, total)
    ensures Label(offset, total).total == total
  {
  }

  /** An empty catalog is labelled `1 - 0 de 0`, and so is every page past the end
      of the catalog labelled with a first number above its last. */
  lemma LabelPastEnd(offset: nat, total: nat)
    requires offset >= total
    ensures Label(offset, total).first > Label(offset, total).last
    ensures PageCount(offset, total) == 0
    ensures total == 0 && offset == 0 ==> Label(offset, total) == PageLabel(1, 0, 0)
  {
  }

  /** A non-negative whole number of pages. */
  predicate PageStart(offset: int) {
    0 <= offset && offset % PageSize == 0
  }

  /** The offset the previous-page button leaves. */
  function AfterPrev(offset: int): (r: int)
    ensures 0 <= offset ==> 0 <= r <= offset
  {
    if offset == 0 then offset else Max(0, offset - PageSize)
  }

  /** The offset the next-page button leaves against a catalog of `total`. */
  function AfterNext(offset: int, total: int): (r: int)
    ensures offset <= r <= offset + PageSize
    ensures r != offset ==> r < total
  {
    if offset + PageSize >= total then offset else offset + PageSize
  }

  /** Both buttons keep the offset at the start of a page; Prev never goes below the
      first page and Next never leaves the catalog once inside it. */
  lemma ButtonsKeepPageStart(offset: int, total: int)
    requires PageStart(offset)
    ensures PageStart(AfterPrev(offset)) && PageStart(AfterNext(offset, total))
    ensures AfterPrev(offset) == (if offset == 0 then 0 else offset - PageSize)
    ensures offset < total ==> AfterNext(offset, total) < total
  {
    if offset != 0 {
      assert offset >= PageSize;
    }
  }

  /** Prev goes back to where a successful Next started. */
  lemma PrevUndoesNext(offset: int, total: int)
    requires PageStart(offset) && offset + PageSize < total
    ensures AfterNext(offset, total) != offset
    ensures AfterPrev(AfterNext(offset, total)) == offset
  {
  }

  /** Next goes back to where a successful Prev started, when that page was inside
      the catalog. */
  lemma NextUndoesPrev(offset: int, total: int)
    requires PageStart(offset) && offset != 0 && offset < total
    ensures AfterPrev(offset) != offset
    ensures AfterNext(AfterPrev(offset), total) == offset
  {
    ButtonsKeepPageStart(offset, total);
  }

  class Pager {
    /** `offset`: index of the first Pokémon of the current page. */
    var offset: int
    /** `totalCount`: the catalog size reported by the last page load. */
    var totalCount: int

    ghost predicate Valid()
      reads this
    {
      PageStart(offset) && 0 <= totalCount
    }

    /** The state before the first load. */
    constructor ()
      ensures Valid()
      ensures offset == 0 && totalCount == 0
    {
      offset := 0;
      totalCount := 0;
    }

    /** The previous-page button: nothing on the first page; otherwise one page back,
        and the page is reloaded. */
    method Prev() returns (reload: bool)
      requires Valid()
      modifies this
      ensures Valid()
      ensures reload <==> old(offset) != 0
      ensures offset == AfterPrev(old(offset))
      ensures reload ==> offset == old(offset) - PageSize
      ensures totalCount == old(totalCount)
    {
      if offset == 0 {
        return false;
      }
      offset := Max(0, offset - PageSize);
      reload := true;
    }

    /** The next-page button: nothing when the next page would start at or past the
        end of the catalog; otherwise one page on, and the page is reloaded. */
    method Next() returns (reload: bool)
      requires Valid()
      modifies this
      ensures Valid()
      ensures reload <==> old(offset) + PageSize < old(totalCount)
      ensures offset == AfterNext(old(offset), old(totalCount))
      ensures reload ==> offset == old(offset) + PageSize && offset < totalCount
      ensures totalCount == old(totalCount)
    {
      if offset + PageSize >= totalCount {
        return false;
      }
      offset := offset + PageSize;
      reload := true;
    }

    /** A page load: the list request answered with catalog size `count`, which
        becomes `totalCount`, and the page label `pageInfo` is set from it. */
    method LoadPage(count: nat) returns (info: PageLabel)
      requires Valid()
      modifies this
      ensures Valid()
      ensures offset == old(offset) && totalCount == count
      ensures info == Label(offset, totalCount)
    {
      totalCount := count;
      info := Label(offset, totalCount);
    }

    /** The search handler: an empty query goes back to the first page; any other
        query leaves the offset alone and is looked up. */
    method SearchInput(raw: string) returns (step: SearchStep)
      requires Valid()
      modifies this
      ensures Valid()
      ensures step == Classify(NormalizeQuery(raw))
      ensures step.ReloadFirstPage? ==> offset == 0
      ensures !step.ReloadFirstPage? ==> offset == old(offset)
      ensures totalCount == old(totalCount)
    {
      var q := NormalizeQuery(raw);
      step := Classify(q);
      if q == [] {
        offset := 0;
      }
    }
  }
}
