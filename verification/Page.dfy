/** Lists returned a page at a time, and what a client collects by following the offsets. */
module Page {
  import opened MachineIntegers
  import opened Wrappers

  const U32_MAX: nat := U32_LIMIT - 1
  const MAX_PAGE_LIMIT: nat := 200

  datatype PageRequest = PageRequest(offset: nat, limit: nat, snapshotRevision: Option<nat>)

  datatype PageWindow = PageWindow(offset: nat, limit: nat)

  datatype ValidatedPageRequest = ValidatedPageRequest(window: PageWindow, snapshotRevision: Option<nat>)

  datatype PageError = LimitOutOfRange(limit: nat) | SnapshotRevisionMismatch(requested: nat, current: nat)

  datatype PageMeta = PageMeta(
    totalCount: nat,
    count: nat,
    offset: nat,
    hasMore: bool,
    nextOffset: Option<nat>,
    snapshotRevision: nat
  )

  predicate ValidLimit(limit: nat) {
    1 <= limit <= MAX_PAGE_LIMIT
  }

  function Validate(request: PageRequest): Result<ValidatedPageRequest, PageError> {
    if !ValidLimit(request.limit) then Err(LimitOutOfRange(request.limit))
    else Ok(ValidatedPageRequest(PageWindow(request.offset, request.limit), request.snapshotRevision))
  }

  /** A request is taken as it is when it asks for 1 to 200 items, and refused with its own limit otherwise. */
  lemma RequestMeaning(request: PageRequest)
    ensures Validate(request) ==
      if 1 <= request.limit <= 200 then
        Ok(ValidatedPageRequest(PageWindow(request.offset, request.limit), request.snapshotRevision))
      else Err(LimitOutOfRange(request.limit))
  {
  }

  function SaturatingU32(n: nat): nat {
    if n > U32_MAX then U32_MAX else n
  }

  function TakeWindow<T>(items: seq<T>, window: PageWindow, snapshotRevision: nat): (seq<T>, PageMeta) {
    var total := |items|;
    var pageEnd := window.offset + window.limit;
    var page := if window.offset >= total then [] else items[window.offset..if pageEnd < total then pageEnd else total];
    var nextOffset := if pageEnd < total then Some(SaturatingU32(pageEnd)) else None;
    (page, PageMeta(SaturatingU32(total), SaturatingU32(|page|), window.offset, nextOffset.Some?, nextOffset,
                    snapshotRevision))
  }

  function TakePage<T>(items: seq<T>, request: ValidatedPageRequest, snapshotRevision: nat)
    : Result<(seq<T>, PageMeta), PageError>
  {
    if request.snapshotRevision.Some? && request.snapshotRevision.value != snapshotRevision then
      Err(SnapshotRevisionMismatch(request.snapshotRevision.value, snapshotRevision))
    else Ok(TakeWindow(items, request.window, snapshotRevision))
  }

  /**
   While counts fit 32 bits the metadata describes the page: its items stand in the list from the
   offset on, more is announced exactly when the page stops short of the end, and the next page
   starts where this one stops.
   */
  lemma MetaDescribesPage<T>(items: seq<T>, window: PageWindow, revision: nat)
    requires |items| <= U32_MAX && ValidLimit(window.limit)
    ensures var (page, meta) := TakeWindow(items, window, revision);
      && meta.totalCount == |items| && meta.count == |page| && meta.offset == window.offset
      && meta.snapshotRevision == revision
      && |page| <= window.limit && (page == [] <==> window.offset >= |items|)
      && (forall i :: 0 <= i < |page| ==> window.offset + i < |items| && page[i] == items[window.offset + i])
      && (meta.hasMore <==> window.offset + |page| < |items|)
      && meta.nextOffset == (if meta.hasMore then Some(window.offset + |page|) else None)
  {
  }

  // ----- Following the offsets of one list -----

  /** What a client has collected, and the offset it asks for next, if any. */
  datatype Progress<T> = Progress(collected: seq<T>, next: Option<nat>)

  /** The limits a client chooses, page by page. */
  ghost predicate ValidLimits(limits: nat -> nat) {
    forall page :: ValidLimit(limits(page))
  }

  function Walk<T>(items: seq<T>, limits: nat -> nat, pages: nat): Progress<T> {
    if pages == 0 then Progress([], Some(0))
    else
      var before := Walk(items, limits, pages - 1);
      if before.next.None? then before
      else
        var (page, meta) := TakeWindow(items, PageWindow(before.next.value, limits(pages - 1)), 0);
        Progress(before.collected + page, meta.nextOffset)
  }

  /** The client ends up, after some number of pages, with exactly the list. */
  ghost predicate WalksExactly<T>(items: seq<T>, limits: nat -> nat) {
    exists pages :: Walk(items, limits, pages) == Progress(items, None)
  }

  /** Up to the last offset 32 bits can carry, every page continues where the one before ended. */
  lemma {:induction false} WalkIsPrefix<T>(items: seq<T>, limits: nat -> nat, pages: nat)
    requires ValidLimits(limits) && |items| <= U32_MAX + 1
    ensures match Walk(items, limits, pages)
      case Progress(collected, None) => collected == items
      case Progress(collected, Some(next)) =>
        pages <= next <= |items| && (next < |items| || next == 0) && collected == items[..next]
  {
    hide TakeWindow;
    if pages > 0 {
      WalkIsPrefix(items, limits, pages - 1);
      var before := Walk(items, limits, pages - 1);
      if before.next.Some? {
        assert ValidLimit(limits(pages - 1));
        NextPage(items, before.next.value, limits(pages - 1));
      }
    }
  }

  /** A page continues the prefix before it, up to its own end or the end of the list. */
  lemma NextPage<T>(items: seq<T>, start: nat, limit: nat)
    requires ValidLimit(limit) && |items| <= U32_MAX + 1 && start <= |items|
    ensures var (page, meta) := TakeWindow(items, PageWindow(start, limit), 0);
      match meta.nextOffset
      case None => items[..start] + page == items
      case Some(next) => start < next < |items| && items[..start] + page == items[..next]
  {
    var end := start + limit;
    if end < |items| {
      assert items[..start] + items[start..end] == items[..end];
    } else {
      assert items[..start] + items[start..] == items;
    }
  }

  lemma ShortListsWalk<T>(items: seq<T>, limits: nat -> nat)
    requires ValidLimits(limits) && |items| <= U32_MAX + 1
    ensures WalksExactly(items, limits)
  {
    WalkIsPrefix(items, limits, |items| + 1);
    assert Walk(items, limits, |items| + 1) == Progress(items, None);
  }

  const HALF_LIMIT: nat := 128

  const HALF_LIMITS: nat -> nat := _ => HALF_LIMIT

  /** 2^32 is a whole number of pages of 128. */
  const LAST_EXACT_PAGE: nat := 0x200_0000

  lemma {:induction false} FullPages<T>(items: seq<T>, pages: nat)
    requires |items| > U32_MAX + 1 && pages <= LAST_EXACT_PAGE
    ensures var end := pages * HALF_LIMIT;
      Walk(items, HALF_LIMITS, pages) == Progress(items[..end], Some(SaturatingU32(end)))
  {
    hide TakeWindow;
    if pages > 0 {
      FullPages(items, pages - 1);
      FullPage(items, (pages - 1) * HALF_LIMIT);
    } else {
      assert items[..0] == [];
    }
  }

  lemma FullPage<T>(items: seq<T>, start: nat)
    requires start <= U32_MAX && start + HALF_LIMIT < |items|
    ensures var (page, meta) := TakeWindow(items, PageWindow(start, HALF_LIMIT), 0);
      items[..start] + page == items[..start + HALF_LIMIT] && meta.nextOffset == Some(SaturatingU32(start + HALF_LIMIT))
  {
    assert items[..start] + items[start..start + HALF_LIMIT] == items[..start + HALF_LIMIT];
  }

  /** Past that, the next offset stays at the largest one and the page before the end is served again. */
  lemma {:induction false} StuckPages<T>(items: seq<T>, pages: nat)
    requires |items| > U32_MAX + 1 && pages > LAST_EXACT_PAGE
    ensures var walk := Walk(items, HALF_LIMITS, pages);
      if |items| > U32_MAX + HALF_LIMIT then walk.next == Some(U32_MAX)
      else walk.next == None && |walk.collected| == |items| + 1
  {
    if pages == LAST_EXACT_PAGE + 1 {
      FullPages(items, LAST_EXACT_PAGE);
    } else {
      StuckPages(items, pages - 1);
    }
  }

  lemma LongListsDoNotWalk<T>(items: seq<T>)
    requires |items| > U32_MAX + 1
    ensures !WalksExactly(items, HALF_LIMITS)
  {
    forall pages: nat ensures Walk(items, HALF_LIMITS, pages) != Progress(items, None) {
      if pages <= LAST_EXACT_PAGE {
        FullPages(items, pages);
      } else {
        StuckPages(items, pages);
      }
    }
  }

  /** Following the offsets collects exactly the list, whatever the page sizes, iff it has at most 2^32 items. */
  lemma WalkMeaning<T>(items: seq<T>)
    ensures (forall limits: nat -> nat :: ValidLimits(limits) ==> WalksExactly(items, limits))
       <==> |items| <= U32_MAX + 1
  {
    if |items| <= U32_MAX + 1 {
      forall limits: nat -> nat | ValidLimits(limits) ensures WalksExactly(items, limits) {
        ShortListsWalk(items, limits);
      }
    } else {
      LongListsDoNotWalk(items);
      assert ValidLimits(HALF_LIMITS) && !WalksExactly(items, HALF_LIMITS);
    }
  }

  // ----- Following the offsets while the list changes -----

  datatype Attempt<T> = Going(progress: Progress<T>, pinned: Option<nat>) | Rejected(error: PageError)

  /**
   The list is a function of the revision, and the revision may be any at each request. The first
   request names none; every later one pins the revision of the first page.
   */
  function WalkEdited<T>(lists: nat -> seq<T>, revisions: nat -> nat, limits: nat -> nat, pages: nat): Attempt<T> {
    if pages == 0 then Going(Progress([], Some(0)), None)
    else
      match WalkEdited(lists, revisions, limits, pages - 1)
      case Rejected(error) => Rejected(error)
      case Going(before, pinned) =>
        if before.next.None? then Going(before, pinned)
        else
          var revision := revisions(pages - 1);
          match Validate(PageRequest(before.next.value, limits(pages - 1), pinned))
          case Err(error) => Rejected(error)
          case Ok(request) =>
            match TakePage(lists(revision), request, revision)
            case Err(error) => Rejected(error)
            case Ok((page, meta)) =>
              Going(Progress(before.collected + page, meta.nextOffset), Some(meta.snapshotRevision))
  }

  /** The revision a page is labelled with does not change what is on it. */
  lemma RevisionOnlyLabels<T>(items: seq<T>, window: PageWindow, revision: nat)
    ensures TakeWindow(items, window, revision).0 == TakeWindow(items, window, 0).0
    ensures TakeWindow(items, window, revision).1 == TakeWindow(items, window, 0).1.(snapshotRevision := revision)
  {
  }

  /**
   A walk that is not rejected is the walk of the list at the first page's revision; a rejected one met
   another revision.
   */
  lemma {:induction false} EditedWalkIsWalk<T>(lists: nat -> seq<T>, revisions: nat -> nat, limits: nat -> nat,
                                               pages: nat)
    requires ValidLimits(limits)
    ensures match WalkEdited(lists, revisions, limits, pages)
      case Going(progress, pinned) =>
        && progress == Walk(lists(revisions(0)), limits, pages)
        && pinned == (if pages == 0 then None else Some(revisions(0)))
      case Rejected(error) =>
        exists page :: 0 < page < pages && revisions(page) != revisions(0)
          && error == SnapshotRevisionMismatch(revisions(0), revisions(page))
  {
    hide TakeWindow;
    if pages > 0 {
      EditedWalkIsWalk(lists, revisions, limits, pages - 1);
      assert ValidLimit(limits(pages - 1));
      var list := lists(revisions(0));
      var before := Walk(list, limits, pages - 1);
      if before.next.Some? {
        RevisionOnlyLabels(list, PageWindow(before.next.value, limits(pages - 1)), revisions(0));
      }
    }
  }

  /** However the project is edited meanwhile, a completed walk is the list as it was at the first page. */
  lemma CompletedWalkIsOneSnapshot<T>(lists: nat -> seq<T>, revisions: nat -> nat, limits: nat -> nat, pages: nat)
    requires ValidLimits(limits) && |lists(revisions(0))| <= U32_MAX + 1
    ensures var walk := WalkEdited(lists, revisions, limits, pages);
      walk.Going? && walk.progress.next.None? ==> walk.progress.collected == lists(revisions(0))
    ensures (forall page :: 0 < page < pages ==> revisions(page) == revisions(0)) && pages > |lists(revisions(0))| ==>
      var walk := WalkEdited(lists, revisions, limits, pages);
      walk.Going? && walk.progress == Progress(lists(revisions(0)), None)
  {
    EditedWalkIsWalk(lists, revisions, limits, pages);
    WalkIsPrefix(lists(revisions(0)), limits, pages);
  }
}
