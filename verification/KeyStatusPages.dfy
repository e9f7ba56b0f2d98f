// Listing the keys of a multi-key channel page by page (controller/channel.go):
// every key with its state, filtered by status, cut into pages, with totals over all keys.

module KeyStatusPages {

  import opened Prelude
  import opened KeyText
  import opened MultiKey

  datatype KeyStatus = KeyStatus(index: nat, status: int, disabledTime: int, reason: string, preview: Key)

  datatype Page = Page(keys: seq<KeyStatus>, total: nat, page: int, pageSize: int, totalPages: int,
                       enabled: nat, manual: nat, auto: nat)

  const DEFAULT_PAGE_SIZE := 50
  const PREVIEW_LENGTH := 10

  function Preview(key: Key): Key {
    if |key| > PREVIEW_LENGTH then key[..PREVIEW_LENGTH] + [46, 46, 46] else key
  }

  function OrElse<T>(o: Option<T>, default: T): T {
    match o case Some(value) => value case None => default
  }

  /** How a record is listed; time and reason show only for a key that is not enabled. */
  function Listed(r: Record, i: nat): KeyStatus {
    if r.status == ENABLED then KeyStatus(i, r.status, 0, "", Preview(r.key))
    else KeyStatus(i, r.status, OrElse(r.time, 0), OrElse(r.reason, ""), Preview(r.key))
  }

  /** A page shows at most the first ten bytes of a key: two keys have the same preview exactly when they are
      the same, or both are longer and begin with the same ten bytes. */
  lemma PreviewIff(a: Key, b: Key)
    ensures Preview(a) == Preview(b) <==> a == b || (|a| > 10 && |b| > 10 && a[..10] == b[..10])
    ensures |a| <= 10 ==> Preview(a) == a
    ensures |a| > 10 ==> |Preview(a)| == 13 && Preview(a)[..10] == a[..10] && Preview(a)[10..] == [46, 46, 46]
  {
    if |a| > 10 {
      assert Preview(a)[..10] == a[..10];
    }
    if |b| > 10 {
      assert Preview(b)[..10] == b[..10];
    }
  }

  /** Two keys at one place are listed alike exactly when they have the same status and preview and, unless
      they are enabled, the same time and reason, where none counts as zero and as empty. */
  lemma ListedAlikeIff(r: Record, s: Record, i: nat)
    ensures Listed(r, i) == Listed(s, i) <==>
      && r.status == s.status && Preview(r.key) == Preview(s.key)
      && (r.status == 1 || ((if r.time.Some? then r.time.value else 0) == (if s.time.Some? then s.time.value else 0)
                            && (if r.reason.Some? then r.reason.value else "") == (if s.reason.Some? then s.reason.value else "")))
    ensures Listed(r, i).index == i && Listed(r, i).status == r.status && Listed(r, i).preview == Preview(r.key)
    ensures r.status == 1 ==> Listed(r, i).disabledTime == 0 && Listed(r, i).reason == ""
    ensures r.status != 1 && r.time.Some? ==> Listed(r, i).disabledTime == r.time.value
    ensures r.status != 1 && r.reason.Some? ==> Listed(r, i).reason == r.reason.value
  {
  }

  function ListAll(rs: seq<Record>): seq<KeyStatus> {
    seq(|rs|, i requires 0 <= i < |rs| => Listed(rs[i], i))
  }

  function Count(list: seq<KeyStatus>, status: int): nat {
    if list == [] then 0
    else Count(list[..|list| - 1], status) + (if list[|list| - 1].status == status then 1 else 0)
  }

  function Filter(list: seq<KeyStatus>, wanted: Option<int>): seq<KeyStatus> {
    if list == [] then []
    else
      var last := list[|list| - 1];
      Filter(list[..|list| - 1], wanted) + (if wanted.None? || last.status == wanted.value then [last] else [])
  }

  // ---- Pages -------------------------------------------------------------------------

  function PageCount(total: nat, size: nat): (n: nat)
    requires size > 0
    ensures n >= 1
  {
    var n := (total + size - 1) / size;
    if n == 0 then 1 else n
  }

  /** Where page k + 1 starts, if the list is long enough. */
  function Offset(k: nat, size: nat): nat {
    if k == 0 then 0 else Offset(k - 1, size) + size
  }

  lemma {:induction false} OffsetIs(k: nat, size: nat)
    ensures Offset(k, size) == k * size
  {
    if k > 0 {
      OffsetIs(k - 1, size);
    }
  }

  lemma {:induction false} OffsetGrows(a: nat, b: nat, size: nat)
    requires a <= b
    ensures Offset(a, size) <= Offset(b, size)
    decreases b
  {
    if a < b {
      OffsetGrows(a, b - 1, size);
    }
  }

  function Bound(k: nat, size: nat, total: nat): nat {
    if Offset(k, size) < total then Offset(k, size) else total
  }

  /** Page k, counted from one. */
  function PageOf<T>(list: seq<T>, k: nat, size: nat): (page: seq<T>)
    requires k >= 1
    ensures |page| == Bound(k, size, |list|) - Bound(k - 1, size, |list|)
  {
    list[Bound(k - 1, size, |list|)..Bound(k, size, |list|)]
  }

  /** The first so many pages one after the other. */
  function Pages<T>(list: seq<T>, n: nat, size: nat): seq<T> {
    if n == 0 then [] else Pages(list, n - 1, size) + PageOf(list, n, size)
  }

  lemma {:induction false} PagesArePrefix<T>(list: seq<T>, n: nat, size: nat)
    ensures Pages(list, n, size) == list[..Bound(n, size, |list|)]
  {
    if n > 0 {
      PagesArePrefix(list, n - 1, size);
    }
  }

  lemma PageCountCovers(total: nat, size: nat)
    requires size > 0
    ensures total <= Offset(PageCount(total, size), size)
    ensures total > 0 ==> Offset(PageCount(total, size) - 1, size) < total
  {
    var q := (total + size - 1) / size;
    assert total + size - 1 == q * size + (total + size - 1) % size;
    assert (q - 1) * size == q * size - size;
    OffsetIs(PageCount(total, size), size);
    OffsetIs(PageCount(total, size) - 1, size);
  }

  /** The pages split the list: put together they are the list, and only the last is not full. */
  lemma PagesPartition<T>(list: seq<T>, size: nat)
    requires size > 0
    ensures Pages(list, PageCount(|list|, size), size) == list
    ensures forall k :: 1 <= k < PageCount(|list|, size) ==> |PageOf(list, k, size)| == size
    ensures list != [] ==> PageOf(list, PageCount(|list|, size), size) != []
  {
    var n := PageCount(|list|, size);
    PageCountCovers(|list|, size);
    PagesArePrefix(list, n, size);
    assert list[..|list|] == list;
    forall k | 1 <= k < n
      ensures |PageOf(list, k, size)| == size
    {
      OffsetGrows(k, n - 1, size);
    }
  }

  // ---- The totals ----------------------------------------------------------------------

  /** The three totals cover every key exactly when every status is one of the three. */
  lemma {:induction false} TotalsIff(list: seq<KeyStatus>)
    ensures Count(list, ENABLED) + Count(list, MANUALLY_DISABLED) + Count(list, AUTO_DISABLED) <= |list|
    ensures Count(list, ENABLED) + Count(list, MANUALLY_DISABLED) + Count(list, AUTO_DISABLED) == |list|
       <==> forall i :: 0 <= i < |list| ==> ENABLED <= list[i].status <= AUTO_DISABLED
  {
    if list != [] {
      TotalsIff(list[..|list| - 1]);
      assert list == list[..|list| - 1] + [list[|list| - 1]];
    }
  }

  /** Filtering by a status keeps exactly the keys counted for it. */
  lemma {:induction false} FilterCount(list: seq<KeyStatus>, status: int)
    ensures |Filter(list, Some(status))| == Count(list, status)
    ensures forall i :: 0 <= i < |Filter(list, Some(status))| ==> Filter(list, Some(status))[i].status == status
    ensures Filter(list, None) == list
  {
    if list != [] {
      FilterCount(list[..|list| - 1], status);
      assert list == list[..|list| - 1] + [list[|list| - 1]];
    }
  }

  // ---- The request ---------------------------------------------------------------------

  method ListKey(key: Key, info: ChannelInfo, i: nat) returns (item: KeyStatus)
    ensures item == Listed(RecordAt(key, info, i), i)
  {
    var status, time, reason := ENABLED, 0, "";
    if i in info.statusList {
      status := info.statusList[i];
    }
    if status != ENABLED {
      if i in info.disabledTime { time := info.disabledTime[i]; }
      if i in info.disabledReason { reason := info.disabledReason[i]; }
    }
    item := KeyStatus(i, status, time, reason, Preview(key));
  }

  lemma CountSnoc(list: seq<KeyStatus>, item: KeyStatus, status: int)
    ensures Count(list + [item], status) == Count(list, status) + if item.status == status then 1 else 0
  {
    assert (list + [item])[..|list|] == list;
  }

  method ListKeys(keys: seq<Key>, info: ChannelInfo) returns (all: seq<KeyStatus>, enabled: nat, manual: nat, auto: nat)
    ensures all == ListAll(Records(keys, info))
    ensures enabled == Count(all, ENABLED) && manual == Count(all, MANUALLY_DISABLED) && auto == Count(all, AUTO_DISABLED)
  {
    all, enabled, manual, auto := [], 0, 0, 0;
    for i := 0 to |keys|
      invariant |all| == i && forall j :: 0 <= j < i ==> all[j] == Listed(RecordAt(keys[j], info, j), j)
      invariant enabled == Count(all, ENABLED) && manual == Count(all, MANUALLY_DISABLED) && auto == Count(all, AUTO_DISABLED)
    {
      var item := ListKey(keys[i], info, i);
      CountSnoc(all, item, ENABLED);
      CountSnoc(all, item, MANUALLY_DISABLED);
      CountSnoc(all, item, AUTO_DISABLED);
      if item.status == ENABLED {
        enabled := enabled + 1;
      } else if item.status == MANUALLY_DISABLED {
        manual := manual + 1;
      } else if item.status == AUTO_DISABLED {
        auto := auto + 1;
      }
      all := all + [item];
    }
  }

  method FilterKeys(all: seq<KeyStatus>, wanted: Option<int>) returns (kept: seq<KeyStatus>)
    ensures kept == Filter(all, wanted)
  {
    if wanted.None? {
      FilterCount(all, 0);
      return all;
    }
    kept := [];
    for i := 0 to |all|
      invariant kept == Filter(all[..i], wanted)
    {
      assert all[..i + 1][..i] == all[..i];
      if all[i].status == wanted.value {
        kept := kept + [all[i]];
      } else {
        EmptyConcat(kept);
      }
    }
    assert all[..|all|] == all;
  }

  method CutPage<T>(list: seq<T>, number: nat, size: nat) returns (shown: seq<T>)
    requires number >= 1
    ensures shown == PageOf(list, number, size)
  {
    var start := (number - 1) * size;
    var end := start + size;
    OffsetIs(number - 1, size);
    if end > |list| {
      end := |list|;
    }
    shown := [];
    if start < |list| {
      shown := list[start..end];
    }
  }

  method ClampPage(page: int, size: nat, total: nat) returns (number: nat, totalPages: nat)
    requires size > 0
    ensures totalPages == PageCount(total, size) && 1 <= number <= totalPages
    ensures number == (if page <= 0 then 1 else if page > totalPages then totalPages else page)
  {
    totalPages := (total + size - 1) / size;
    if totalPages == 0 {
      totalPages := 1;
    }
    number := if page <= 0 then 1 else page;
    if number > totalPages {
      number := totalPages;
    }
  }

  /** A page number out of range is brought to the nearest page, a page size that is not positive to the default. */
  method GetKeyStatus(keys: seq<Key>, info: ChannelInfo, page: int, pageSize: int, wanted: Option<int>) returns (r: Page)
    ensures r.pageSize == (if pageSize <= 0 then 50 else pageSize)
    ensures var list := Filter(ListAll(Records(keys, info)), wanted);
            && r.total == |list| && r.totalPages == PageCount(|list|, r.pageSize)
            && r.page == (if page <= 0 then 1 else if page > r.totalPages then r.totalPages else page)
            && r.keys == PageOf(list, r.page, r.pageSize)
    ensures var all := ListAll(Records(keys, info));
            r.enabled == Count(all, 1) && r.manual == Count(all, 2) && r.auto == Count(all, 3)
  {
    var size := pageSize;
    if size <= 0 {
      size := DEFAULT_PAGE_SIZE;
    }
    var all, enabled, manual, auto := ListKeys(keys, info);
    var kept := FilterKeys(all, wanted);
    var number, totalPages := ClampPage(page, size, |kept|);
    var shown := CutPage(kept, number, size);
    r := Page(shown, |kept|, number, size, totalPages, enabled, manual, auto);
  }
}
