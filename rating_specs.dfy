/**
 * RatingSpecs: one offset-paged page of rating specifications. Its Builder holds the page's
 * offset, page size and total and a reference to the caller's list; build() copies that list
 * and sets the next-page cursor exactly when the page came back full.
 */
module RatingSpecPages {
  import opened Wrappers
  import opened JavaText

  /** A rating specification, identified by its rating id (its other fields are carried along). */
  datatype RatingSpec = RatingSpec(ratingId: string)

  /** A java.util.List the caller owns and may go on changing. */
  class SpecList {
    var items: seq<RatingSpec>

    constructor (items: seq<RatingSpec>)
      ensures this.items == items
    {
      this.items := items;
    }

    method Add(spec: RatingSpec)
      modifies this
      ensures items == old(items) + [spec]
    {
      items := items + [spec];
    }
  }

  /** The parts encodeCursor combines into a page token: resume key, page size and total. */
  datatype PageCursor = PageCursor(key: string, pageSize: int, total: Option<Int32>)

  /**
   * RatingSpecs.Builder.build: a full page (as many specs as the page size) has a next page, resuming at
   * offset + size computed in Java int; any other page is the last one.
   */
  function NextPage(offset: Int32, size: nat, pageSize: Int32, total: Option<Int32>): (r: Option<PageCursor>)
    ensures r.Some? <==> size == pageSize
    ensures r.Some? ==> r.value.pageSize == pageSize && r.value.total == total
    ensures r.Some? ==> ParseInt(r.value.key) == Some(Wrap32(offset + size))
  {
    if size == pageSize then
      ParseIntOfToString(Wrap32(offset + size));
      Some(PageCursor(IntToString(Wrap32(offset + size)), pageSize, total))
    else None
  }

  /** Without overflow, the next page starts right after the last spec of this one. */
  lemma NextPageResumesAfterPage(offset: Int32, pageSize: Int32, total: Option<Int32>)
    requires 0 <= offset && 0 <= pageSize && offset + pageSize <= MaxInt32
    ensures var next := NextPage(offset, pageSize, pageSize, total);
      next.Some? && ParseInt(next.value.key) == Some(offset + pageSize)
  {
  }

  /** A page short of the page size, an empty one included when the size is positive, is the last. */
  lemma ShortPageIsLast(offset: Int32, size: nat, pageSize: Int32, total: Option<Int32>)
    requires size < pageSize
    ensures NextPage(offset, size, pageSize, total).None?
  {
  }

  /** A RatingSpecs page: its own copy of the specs, the cursor it was asked for and the next one. */
  class RatingSpecs {
    const offset: Int32
    /** The inbound cursor, Integer.toString(offset). */
    const page: string
    const pageSize: Int32
    const total: Option<Int32>
    const specs: seq<RatingSpec>
    var nextPage: Option<PageCursor>

    /** RatingSpecs' constructor: the page and its own copy of the list. */
    constructor (offset: Int32, pageSize: Int32, total: Option<Int32>, specsList: seq<RatingSpec>)
      ensures this.offset == offset && page == IntToString(offset)
      ensures this.pageSize == pageSize && this.total == total && specs == specsList
      ensures nextPage.None?
    {
      this.offset := offset;
      page := IntToString(offset);
      this.pageSize := pageSize;
      this.total := total;
      specs := specsList;
      nextPage := None;
    }

    /** RatingSpecs.getSpecs: a read-only view of the specs. */
    function GetSpecs(): seq<RatingSpec>
    {
      specs
    }
  }

  /** RatingSpecs.Builder. */
  class Builder {
    const offset: Int32
    const pageSize: Int32
    const total: Option<Int32>
    var specs: SpecList?

    /** RatingSpecs.Builder's constructor. */
    constructor (offset: Int32, pageSize: Int32, total: Option<Int32>)
      ensures this.offset == offset && this.pageSize == pageSize && this.total == total
      ensures specs == null
    {
      this.offset := offset;
      this.pageSize := pageSize;
      this.total := total;
      specs := null;
    }

    /** RatingSpecs.Builder.specs: keeps a reference to the caller's list, not a copy. */
    method Specs(specList: SpecList?) returns (self: Builder)
      modifies this
      ensures specs == specList && self == this
    {
      specs := specList;
      self := this;
    }

    /**
     * RatingSpecs.Builder.build: a new page holding a copy of the list's current contents, with the next
     * cursor set by NextPage; without a list the copy throws.
     */
    method Build() returns (r: Result<RatingSpecs, Exception>)
      ensures specs == null ==> r == Err(NullPointer)
      ensures specs != null ==> r.Ok? && fresh(r.value)
      ensures r.Ok? ==>
        && r.value.offset == offset && r.value.page == IntToString(offset)
        && r.value.pageSize == pageSize && r.value.total == total
        && r.value.specs == specs.items
        && r.value.nextPage == NextPage(offset, |specs.items|, pageSize, total)
    {
      if specs == null {
        return Err(NullPointer);
      }
      var retval := new RatingSpecs(offset, pageSize, total, specs.items);
      if |specs.items| == pageSize {
        var cursor := IntToString(Wrap32(retval.offset + |retval.specs|));
        retval.nextPage := Some(PageCursor(cursor, retval.pageSize, retval.total));
      } else {
        retval.nextPage := None;
      }
      r := Ok(retval);
    }
  }

  /**
   * The page keeps what the list held when it was built: adding to the list afterwards leaves
   * what getSpecs shows as it was.
   */
  method BuiltPageIsIsolated(offset: Int32, pageSize: Int32, total: Option<Int32>, list: SpecList, extra: RatingSpec)
    returns (page: RatingSpecs)
    modifies list
    ensures page.GetSpecs() == old(list.items) && list.items == old(list.items) + [extra]
  {
    var builder := new Builder(offset, pageSize, total);
    var b := builder.Specs(list);
    var r := b.Build();
    page := r.value;
    list.Add(extra);
  }
}
