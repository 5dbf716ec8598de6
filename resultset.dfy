/** ResultSet: iteration over a find's cursor, and pagination of a collection. */
module ResultSets {
  import opened Errors
  import opened Store
  import opened DocumentBases
  import opened Collections

  // ---------------------------------------------------------------------------
  // Page arithmetic

  datatype PaginationInfo = PaginationInfo(current: int, totalPages: int, perPage: int, totalRecords: int, recordsOnPage: int)

  /** The info a failed count leaves: all zero. */
  const ZeroInfo := PaginationInfo(0, 0, 0, 0, 0)

  /** The number of pages: count / perPage rounded up. */
  function TotalPages(count: nat, perPage: nat): nat
    requires perPage > 0
  {
    (count + perPage - 1) / perPage
  }

  /** The requested page clamped: below 1 to 1, otherwise above the last page to the last. */
  function ClampPage(page: int, totalPages: int): int
  {
    if page < 1 then 1 else if page > totalPages then totalPages else page
  }

  /** The number of records to skip to reach the current page. */
  function PageSkip(current: int, perPage: int): int
  {
    (current - 1) * perPage
  }

  /** The records on the current page: a full page before the last, and on the last the
      remainder, or a full page when the count divides evenly. */
  function RecordsOnPage(current: int, totalPages: int, count: nat, perPage: nat): int
    requires perPage > 0
  {
    if current < totalPages then perPage
    else
      var m := count % perPage;
      if m == 0 && count > 0 then perPage else m
  }

  function PageInfo(count: nat, perPage: nat, page: int): PaginationInfo
    requires perPage > 0
  {
    var total := TotalPages(count, perPage);
    var current := ClampPage(page, total);
    PaginationInfo(current, total, perPage, count, RecordsOnPage(current, total, count, perPage))
  }

  lemma MulMonotone(x: int, y: int, d: int)
    requires x <= y && d >= 0
    ensures x * d <= y * d
  {
    assert y * d - x * d == (y - x) * d;
  }

  /** Euclidean division is determined by quotient and remainder. */
  lemma DivUnique(a: int, d: int, q: int, r: int)
    requires d > 0 && 0 <= r < d && a == q * d + r
    ensures a / d == q && a % d == r
  {
    var q', r' := a / d, a % d;
    assert a == q' * d + r';
    if q' > q {
      MulMonotone(q + 1, q', d);
    } else if q' < q {
      MulMonotone(q' + 1, q, d);
    }
  }

  /** TotalPages is the ceiling: the least number of pages of perPage records holding count. */
  lemma TotalPagesIsCeiling(count: nat, perPage: nat)
    requires perPage > 0
    ensures TotalPages(count, perPage) * perPage >= count
    ensures TotalPages(count, perPage) == 0 || (TotalPages(count, perPage) - 1) * perPage < count
    ensures TotalPages(count, perPage) == 0 <==> count == 0
  {
    var q := count / perPage;
    var m := count % perPage;
    assert count == q * perPage + m;
    if m == 0 {
      DivUnique(count + perPage - 1, perPage, q, perPage - 1);
    } else {
      DivUnique(count + perPage - 1, perPage, q + 1, m - 1);
    }
  }

  /** With records present the current page lies between 1 and the last page; a page below 1
      becomes 1, a page past the end the last page, and any other page is kept. */
  lemma CurrentPageClamped(count: nat, perPage: nat, page: int)
    requires perPage > 0
    ensures var info := PageInfo(count, perPage, page);
      (count > 0 ==> 1 <= info.current <= info.totalPages) &&
      (page < 1 ==> info.current == 1) &&
      (1 <= page <= info.totalPages ==> info.current == page) &&
      (page >= 1 && page > info.totalPages ==> info.current == info.totalPages)
  {
    TotalPagesIsCeiling(count, perPage);
  }

  /** An empty collection with a page of 1 or more gives page 0, no records, and a skip of
      minus one page. */
  lemma EmptyCollectionPage(perPage: nat, page: int)
    requires perPage > 0 && page >= 1
    ensures var info := PageInfo(0, perPage, page);
      info.totalPages == 0 && info.current == 0 && info.recordsOnPage == 0 && PageSkip(info.current, perPage) == -(perPage as int)
  {
    TotalPagesIsCeiling(0, perPage);
  }

  /** TotalPages in terms of Euclidean quotient and remainder. */
  lemma TotalPagesQuotient(count: nat, perPage: nat)
    requires perPage > 0
    ensures TotalPages(count, perPage) == count / perPage + (if count % perPage == 0 then 0 else 1)
  {
    var q := count / perPage;
    var m := count % perPage;
    if m == 0 {
      DivUnique(count + perPage - 1, perPage, q, perPage - 1);
    } else {
      DivUnique(count + perPage - 1, perPage, q + 1, m - 1);
    }
  }

  /** With records present, RecordsOnPage is the number of records from the skip on, capped
      at one page, so it lies between 1 and perPage. */
  lemma RecordsOnPageCounts(count: nat, perPage: nat, page: int)
    requires perPage > 0 && count > 0
    ensures var info := PageInfo(count, perPage, page);
      var rest := count - PageSkip(info.current, perPage);
      info.recordsOnPage == (if rest < perPage then rest else perPage) &&
      1 <= info.recordsOnPage <= perPage
  {
    var total := TotalPages(count, perPage);
    var current := ClampPage(page, total);
    var q := count / perPage;
    var m := count % perPage;
    TotalPagesQuotient(count, perPage);
    assert count == q * perPage + m;
    assert total >= 1 && 1 <= current <= total;
    var rest := count - PageSkip(current, perPage);
    if current < total {
      assert current <= q;
      MulMonotone(current, q, perPage);
      assert rest == count - current * perPage + perPage;
      assert rest >= perPage;
    } else if m == 0 {
      assert current == q;
      assert rest == perPage;
    } else {
      assert current == q + 1;
      assert PageSkip(current, perPage) == q * perPage;
      assert rest == m;
    }
  }

  // ---------------------------------------------------------------------------
  // The result set

  class ResultSet {
    const collection: string
    const store: Store
    /** The skip and limit set on the find's options, when set. */
    var skip: Option<int>
    var limit: Option<int>
    /** The documents the cursor has still to deliver, the error it reports once exhausted,
        and the error closing it reports. */
    var pending: seq<Doc>
    const cursorError: Option<Error>
    const closeError: Option<Error>
    var closed: bool
    var loadedIter: bool
    var error: Option<Error>

    constructor (collection0: string, store0: Store, docs: seq<Doc>, cursorError0: Option<Error>, closeError0: Option<Error>)
      ensures collection == collection0 && store == store0 && pending == docs
      ensures cursorError == cursorError0 && closeError == closeError0
      ensures skip == None && limit == None && !closed && !loadedIter && error == None
    {
      collection, store, pending := collection0, store0, docs;
      cursorError, closeError := cursorError0, closeError0;
      skip, limit, closed, loadedIter, error := None, None, false, false, None;
    }

    /** Next: advance the cursor. A document delivered runs AfterFind and, unless that fails,
        marks `doc` not new; an exhausted cursor records its error. */
    method Next(doc: DocumentBase, caps: Capabilities) returns (got: bool)
      modifies this`loadedIter, this`pending, this`error, doc`existing
      ensures loadedIter
      ensures pending == if |old(pending)| > 0 then old(pending)[1..] else old(pending)
      ensures got <==> |old(pending)| > 0 && !caps.afterFind.Fails?
      ensures error ==
        if |old(pending)| > 0 then (if caps.afterFind.Fails? then HookOutcome(caps.afterFind) else old(error))
        else if cursorError.Some? then cursorError else old(error)
      ensures doc.existing == (old(doc.existing) || (got && caps.newTracker))
    {
      if !loadedIter {
        loadedIter := true;
      }
      if |pending| > 0 {
        pending := pending[1..];
        if caps.afterFind.Fails? {
          error := HookOutcome(caps.afterFind);
          return false;
        }
        if caps.newTracker {
          doc.SetIsNew(false);
        }
        return true;
      }
      if cursorError.Some? {
        error := cursorError;
      }
      return false;
    }

    /** Free: close the cursor, but only if Next was ever called. */
    method Free() returns (err: Option<Error>)
      modifies this`closed
      ensures closed == (old(closed) || loadedIter)
      ensures err == if loadedIter then closeError else None
    {
      if loadedIter {
        closed := true;
        return closeError;
      }
      return None;
    }

    /** Paginate: count the collection, clamp the page, and set skip and limit for it; a failed
        count returns the zero info and sets nothing. */
    method Paginate(perPage: nat, page: int) returns (info: PaginationInfo, err: Option<Error>)
      requires perPage > 0
      modifies this`skip, this`limit, store
      ensures var st := old(store.Snapshot());
        store.Snapshot() == Step(st, Count(collection), store.faults) &&
        if |st.log| in store.faults then
          info == ZeroInfo && err == Some(StoreError(|st.log|)) && skip == old(skip) && limit == old(limit)
        else
          var count := |Docs(st.db, collection)|;
          info == PageInfo(count, perPage, page) && err == None &&
          skip == Some(PageSkip(info.current, perPage)) && limit == Some(perPage)
    {
      var res := store.CountDocuments(collection);
      if res.Err? {
        return ZeroInfo, Some(res.error);
      }
      var count := res.value;
      var totalPages := (count + perPage - 1) / perPage;
      var current := page;
      if current < 1 {
        current := 1;
      } else if current > totalPages {
        current := totalPages;
      }
      skip := Some((current - 1) * perPage);
      limit := Some(perPage);
      var recordsOnPage;
      if current < totalPages {
        recordsOnPage := perPage;
      } else {
        recordsOnPage := count % perPage;
        if recordsOnPage == 0 && count > 0 {
          recordsOnPage := perPage;
        }
      }
      info := PaginationInfo(current, totalPages, perPage, count, recordsOnPage);
      err := None;
    }
  }
}
