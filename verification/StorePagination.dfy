/**
 The cursor loop of `queryPerPage`, packages/core/src/lib/store/index.ts, against a store that
 pages its log as packages/interfaces/src/store.ts describes: after the cursor, or before it
 when paging backward, at most `limit` messages and never more than the cap of the store.
 */
module StorePagination {
  import opened Wrappers

  type Hash = string
  type ContentTopic = string
  type Content = string

  datatype ProtoMessage = ProtoMessage(contentTopic: ContentTopic, content: Content)

  // One entry of a response: WakuMessageKeyValue
  datatype KeyValue = KeyValue(messageHash: Hash, message: Option<ProtoMessage>, pubsubTopic: Option<string>)

  /** The entries that match the query, oldest first, and the page sizes the store applies. */
  datatype Store = Store(log: seq<KeyValue>, cap: nat, dflt: nat)

  datatype Query = Query(cursor: Option<Hash>, forward: bool, limit: nat)  // limit 0: not given

  datatype Failure = StatusError

  const DEFAULT_PAGE_SIZE: nat := 20
  const MAX_PAGE_SIZE: nat := 100

  ghost predicate ValidStore(st: Store) {
    && st.cap >= 1 && st.dflt >= 1
    && forall i, j :: 0 <= i < j < |st.log| ==> st.log[i].messageHash != st.log[j].messageHash
  }

  // ---------------------------------------------------------------- the store

  function Min(a: nat, b: nat): nat {
    if a < b then a else b
  }

  function PageSize(st: Store, limit: nat): nat {
    Min(if limit > 0 then limit else st.dflt, st.cap)
  }

  /** Where a hash lies in the log, or its length. */
  function IndexOf(log: seq<KeyValue>, h: Hash): (i: nat)
    ensures i <= |log|
    ensures i < |log| ==> log[i].messageHash == h
    ensures i == |log| ==> forall k :: 0 <= k < |log| ==> log[k].messageHash != h
  {
    if log == [] then 0
    else if log[0].messageHash == h then 0
    else
      var i := IndexOf(log[1..], h);
      assert forall k :: 1 <= k < |log| ==> log[k] == log[1..][k - 1];
      i + 1
  }

  /** What a query is to return in all: the log strictly beyond the cursor, in its direction. */
  function Matching(st: Store, q: Query): Result<seq<KeyValue>, Failure> {
    match q.cursor
    case None => Ok(st.log)
    case Some(h) =>
      var i := IndexOf(st.log, h);
      if i == |st.log| then Err(StatusError)
      else Ok(if q.forward then st.log[i + 1..] else st.log[..i])
  }

  /** One page: the first messages beyond the cursor, or the last ones when paging backward. */
  function Serve(st: Store, q: Query): Result<seq<KeyValue>, Failure>
    requires st.cap >= 1 && st.dflt >= 1
  {
    var rest :- Matching(st, q);
    Ok(Page(st, q.limit, q.forward, rest))
  }

  // ---------------------------------------------------------------- the client

  // What is yielded for one entry: nothing, or the decoder chosen and what it is given
  datatype Decoded = Undefined | DecodedBy(decoder: int, pubsubTopic: string, message: ProtoMessage)

  function DecodeEntry(decoders: map<ContentTopic, int>, kv: KeyValue): Decoded {
    if kv.message.None? then Undefined
    else
      var m := kv.message.value;
      if m.contentTopic != "" && m.contentTopic in decoders then
        DecodedBy(decoders[m.contentTopic], if kv.pubsubTopic.Some? then kv.pubsubTopic.value else "", m)
      else Undefined
  }

  function DecodePage(decoders: map<ContentTopic, int>, page: seq<KeyValue>): seq<Decoded> {
    seq(|page|, i requires 0 <= i < |page| => DecodeEntry(decoders, page[i]))
  }

  /** The early exit after a page: longer than the maximum, yet shorter than asked for. */
  predicate StopsEarly(limit: nat, page: seq<KeyValue>) {
    |page| > MAX_PAGE_SIZE && |page| < if limit > 0 then limit else DEFAULT_PAGE_SIZE
  }

  function NextCursor(forward: bool, page: seq<KeyValue>): Hash
    requires page != []
  {
    if forward then page[|page| - 1].messageHash else page[0].messageHash
  }

  function Page(st: Store, limit: nat, forward: bool, rest: seq<KeyValue>): (page: seq<KeyValue>)
    requires st.cap >= 1 && st.dflt >= 1
    ensures |page| <= |rest| && (page == [] <==> rest == [])
  {
    var n := Min(PageSize(st, limit), |rest|);
    if forward then rest[..n] else rest[|rest| - n..]
  }

  function Beyond(forward: bool, rest: seq<KeyValue>, page: seq<KeyValue>): (left: seq<KeyValue>)
    requires |page| <= |rest|
    ensures |left| == |rest| - |page|
  {
    if forward then rest[|page|..] else rest[..|rest| - |page|]
  }

  /** The pages the loop yields when `rest` is still to come and request i is next. */
  function FetchPages(st: Store, q: Query, rest: seq<KeyValue>, up: nat -> bool, i: nat): seq<seq<KeyValue>>
    requires st.cap >= 1 && st.dflt >= 1
    decreases |rest|
  {
    if !up(i) || rest == [] then []
    else
      var page := Page(st, q.limit, q.forward, rest);
      if StopsEarly(q.limit, page) then [page]
      else [page] + FetchPages(st, q, Beyond(q.forward, rest, page), up, i + 1)
  }

  /** What the modelled store owes to a query: everything, or what lies beyond the cursor. */
  lemma MatchingIs(st: Store, q: Query)
    requires ValidStore(st)
    ensures q.cursor == None ==> Matching(st, q) == Ok(st.log)
    ensures forall k :: 0 <= k < |st.log| && q.cursor == Some(st.log[k].messageHash) ==>
              Matching(st, q) == Ok(if q.forward then st.log[k + 1..] else st.log[..k])
    ensures q.cursor.Some? && (forall k :: 0 <= k < |st.log| ==> st.log[k].messageHash != q.cursor.value) ==>
              Matching(st, q).Err?
  {
    hide IndexOf;
    forall k | 0 <= k < |st.log| && q.cursor == Some(st.log[k].messageHash)
      ensures IndexOf(st.log, q.cursor.value) == k
    {
      IndexOfUnique(st.log, k);
    }
  }

  /**
   What the store serves of it: as much as asked for, or its default when nothing is, but never
   more than its cap, from the end that the paging direction comes to first.
   */
  lemma ServedIs(st: Store, q: Query, log: seq<KeyValue>)
    requires ValidStore(st) && Matching(st, q) == Ok(log)
    ensures Serve(st, q).Ok?
    ensures var page, asked := Serve(st, q).value, if q.limit > 0 then q.limit else st.dflt;
            && |page| <= |log| && |page| <= st.cap && |page| <= asked
            && (|page| == |log| || |page| == st.cap || |page| == asked)
            && page == if q.forward then log[..|page|] else log[|log| - |page|..]
  {
    hide Matching;
  }

  lemma IndexOfUnique(log: seq<KeyValue>, k: nat)
    requires k < |log| && forall i, j :: 0 <= i < j < |log| ==> log[i].messageHash != log[j].messageHash
    ensures IndexOf(log, log[k].messageHash) == k
  {
    hide IndexOf;
    var i := IndexOf(log, log[k].messageHash);
    assert i < |log| && log[i].messageHash == log[k].messageHash;
  }

  lemma ForwardCursor(st: Store, q: Query, rest: seq<KeyValue>, n: nat)
    requires ValidStore(st) && q.forward && 1 <= n <= |rest| <= |st.log| && rest == st.log[|st.log| - |rest|..]
    ensures Matching(st, q.(cursor := Some(rest[n - 1].messageHash))) == Ok(rest[n..])
  {
    hide IndexOf;
    IndexOfUnique(st.log, |st.log| - |rest| + n - 1);
    assert st.log[|st.log| - |rest| + n..] == rest[n..];
  }

  lemma BackwardCursor(st: Store, q: Query, rest: seq<KeyValue>, n: nat)
    requires ValidStore(st) && !q.forward && 1 <= n <= |rest| <= |st.log| && rest == st.log[..|rest|]
    ensures Matching(st, q.(cursor := Some(rest[|rest| - n].messageHash))) == Ok(rest[..|rest| - n])
  {
    hide IndexOf;
    IndexOfUnique(st.log, |rest| - n);
    assert st.log[..|rest| - n] == rest[..|rest| - n];
  }

  lemma MatchingShape(st: Store, q: Query)
    requires Matching(st, q).Ok?
    ensures var rest := Matching(st, q).value;
            && |rest| <= |st.log|
            && rest == if q.forward then st.log[|st.log| - |rest|..] else st.log[..|rest|]
  {
  }

  /** After a page, the query from the new cursor matches exactly what the page left over. */
  lemma CursorAdvances(st: Store, q: Query)
    requires ValidStore(st) && Matching(st, q).Ok? && Matching(st, q).value != []
    ensures var rest := Matching(st, q).value;
            var page := Page(st, q.limit, q.forward, rest);
            Matching(st, q.(cursor := Some(NextCursor(q.forward, page)))) == Ok(Beyond(q.forward, rest, page))
  {
    MatchingShape(st, q);
    hide IndexOf, PageSize, Matching;
    var rest := Matching(st, q).value;
    var n := |Page(st, q.limit, q.forward, rest)|;
    if q.forward {
      ForwardCursor(st, q, rest, n);
    } else {
      BackwardCursor(st, q, rest, n);
    }
  }

  /**
   The loop: pages are requested until one is empty, an answer is an error, no stream can be
   opened (`up`, by request), or the early exit fires.
   */
  method QueryPerPage(st: Store, query: Query, decoders: map<ContentTopic, int>, up: nat -> bool)
    returns (yielded: seq<seq<Decoded>>, failure: Option<Failure>)
    requires ValidStore(st)
    ensures Matching(st, query).Ok? ==>
              && failure == None
              && yielded == DecodePages(decoders, FetchPages(st, query, Matching(st, query).value, up, 0))
    ensures Matching(st, query).Ok? ==> YieldsStretch(decoders, query.forward, Matching(st, query).value, yielded)
    ensures Matching(st, query).Ok? && Conforms(st, up) ==>
              YieldsAll(decoders, query.forward, Matching(st, query).value, yielded)
    ensures Matching(st, query).Err? ==>
              yielded == [] && failure == if up(0) then Some(Matching(st, query).error) else None
  {
    hide IndexOf, Page, Beyond, FetchPages, Matching, StopsEarly, DecodePages, YieldsStretch, YieldsAll,
         Conforms;
    if Matching(st, query).Ok? {
      YieldedIsDecoded(st, query, decoders, Matching(st, query).value, up);
    }
    DecodeNone(decoders);
    var currentCursor := query.cursor;
    yielded, failure := [], None;
    ghost var pages: seq<seq<KeyValue>> := [];
    ghost var whole := Matching(st, query);
    ghost var rest := if whole.Ok? then whole.value else [];
    while true
      invariant yielded == DecodePages(decoders, pages)
      invariant whole.Err? ==> pages == [] && Matching(st, query.(cursor := currentCursor)) == whole
      invariant whole.Ok? ==>
                  && Matching(st, query.(cursor := currentCursor)) == Ok(rest)
                  && FetchPages(st, query, whole.value, up, 0) == pages + FetchPages(st, query, rest, up, |pages|)
      decreases |rest|
    {
      PagesEnd(st, query, rest, up, |pages|);
      assert pages + [] == pages;
      if !up(|yielded|) {
        break;
      }
      var response := Serve(st, query.(cursor := currentCursor));
      if response.Err? {
        failure := Some(response.error);
        break;
      }
      var messages := response.value;
      if messages == [] {
        break;
      }
      CursorAdvances(st, query.(cursor := currentCursor));
      PagesUnfold(st, query, rest, up, pages);
      DecodeSnoc(decoders, pages, messages);
      yielded := yielded + [DecodePage(decoders, messages)];
      pages := pages + [messages];
      rest := Beyond(query.forward, rest, messages);
      currentCursor := Some(NextCursor(query.forward, messages));
      if StopsEarly(query.limit, messages) {
        break;
      }
    }
  }

  function DecodePages(decoders: map<ContentTopic, int>, pages: seq<seq<KeyValue>>): (r: seq<seq<Decoded>>)
    ensures |r| == |pages|
  {
    seq(|pages|, i requires 0 <= i < |pages| => DecodePage(decoders, pages[i]))
  }

  lemma DecodeNone(decoders: map<ContentTopic, int>)
    ensures DecodePages(decoders, []) == []
  {
  }

  lemma DecodeSnoc(decoders: map<ContentTopic, int>, pages: seq<seq<KeyValue>>, page: seq<KeyValue>)
    ensures DecodePages(decoders, pages + [page]) == DecodePages(decoders, pages) + [DecodePage(decoders, page)]
  {
  }

  lemma PagesEnd(st: Store, q: Query, rest: seq<KeyValue>, up: nat -> bool, i: nat)
    requires st.cap >= 1 && st.dflt >= 1
    ensures !up(i) || rest == [] ==> FetchPages(st, q, rest, up, i) == []
  {
  }

  lemma PagesUnfold(st: Store, q: Query, rest: seq<KeyValue>, up: nat -> bool, pages: seq<seq<KeyValue>>)
    requires st.cap >= 1 && st.dflt >= 1 && up(|pages|) && rest != []
    ensures var page := Page(st, q.limit, q.forward, rest);
            pages + FetchPages(st, q, rest, up, |pages|)
              == if StopsEarly(q.limit, page) then pages + [page]
                 else pages + [page] + FetchPages(st, q, Beyond(q.forward, rest, page), up, |pages| + 1)
  {
    hide Page, Beyond, StopsEarly;
  }

  // ---------------------------------------------------------------- what the pages add up to

  /** The pages oldest first: backward pagination yields the newest page first. */
  function InOrder<T>(forward: bool, pages: seq<seq<T>>): seq<T> {
    if pages == [] then []
    else if forward then pages[0] + InOrder(forward, pages[1..])
    else InOrder(forward, pages[1..]) + pages[0]
  }

  lemma InOrderCons(q: Query, page: seq<KeyValue>, pages: seq<seq<KeyValue>>)
    ensures InOrder(q.forward, [page] + pages)
         == if q.forward then page + InOrder(q.forward, pages) else InOrder(q.forward, pages) + page
    ensures InOrder(q.forward, [page]) == page
  {
    assert ([page] + pages)[1..] == pages;
  }

  lemma CancelPrefix(a: seq<KeyValue>, b: seq<KeyValue>, c: seq<KeyValue>)
    ensures a + b == a + c <==> b == c
    ensures b + a == c + a <==> b == c
  {
    if a + b == a + c {
      assert b == (a + b)[|a|..] && c == (a + c)[|a|..];
    }
    if b + a == c + a {
      assert |b| == |c|;
      assert b == (b + a)[..|b|] && c == (c + a)[..|c|];
    }
  }

  /** The store fills a page past the maximum yet short of the limit, and has more to give. */
  predicate EarlyExitDrops(st: Store, limit: nat, matching: nat) {
    var size := PageSize(st, limit);
    MAX_PAGE_SIZE < size < (if limit > 0 then limit else DEFAULT_PAGE_SIZE) && matching > size
  }

  lemma WhenItDrops(st: Store, limit: nat, n: nat, page: seq<KeyValue>)
    requires |page| == Min(PageSize(st, limit), n)
    ensures EarlyExitDrops(st, limit, n) <==> StopsEarly(limit, page) && |page| < n
    ensures !StopsEarly(limit, page) ==> !EarlyExitDrops(st, limit, n - |page|)
  {
  }

  lemma PageThenLeft(st: Store, q: Query, rest: seq<KeyValue>)
    requires st.cap >= 1 && st.dflt >= 1
    ensures var page := Page(st, q.limit, q.forward, rest);
            var left := Beyond(q.forward, rest, page);
            && |page| == Min(PageSize(st, q.limit), |rest|)
            && rest == if q.forward then page + left else left + page
  {
  }

  /**
   Exactly when the loop returns the whole matching log: unless the page cap of the store lies
   strictly between the maximum page size and the requested limit, and a page is not enough.
   */
  lemma {:induction false} CompleteIff(st: Store, q: Query, rest: seq<KeyValue>, up: nat -> bool, i: nat)
    requires st.cap >= 1 && st.dflt >= 1 && forall k :: up(k)
    ensures InOrder(q.forward, FetchPages(st, q, rest, up, i)) == rest <==> !EarlyExitDrops(st, q.limit, |rest|)
    decreases |rest|
  {
    if rest != [] {
      hide Page, Beyond, InOrder, StopsEarly, EarlyExitDrops, PageSize;
      var page := Page(st, q.limit, q.forward, rest);
      var left := Beyond(q.forward, rest, page);
      PageThenLeft(st, q, rest);
      WhenItDrops(st, q.limit, |rest|, page);
      if StopsEarly(q.limit, page) {
        InOrderCons(q, page, []);
      } else {
        var pages := FetchPages(st, q, left, up, i + 1);
        CompleteIff(st, q, left, up, i + 1);
        InOrderCons(q, page, pages);
        CancelPrefix(page, InOrder(q.forward, pages), left);
      }
    }
  }

  /** A store that keeps to pages of at most 100 never triggers the early exit. */
  lemma ConformingStoreIsComplete(st: Store, q: Query, up: nat -> bool)
    requires ValidStore(st) && st.cap <= MAX_PAGE_SIZE && Matching(st, q).Ok? && forall k :: up(k)
    ensures var whole := Matching(st, q).value; InOrder(q.forward, FetchPages(st, q, whole, up, 0)) == whole
  {
    CompleteIff(st, q, Matching(st, q).value, up, 0);
  }

  /** Whatever fails and whenever it stops, the pages are an unbroken stretch from the cursor on. */
  lemma {:induction false} PagesAreContiguous(st: Store, q: Query, rest: seq<KeyValue>, up: nat -> bool, i: nat)
    requires st.cap >= 1 && st.dflt >= 1
    ensures Stretch(q.forward, InOrder(q.forward, FetchPages(st, q, rest, up, i)), rest)
    decreases |rest|
  {
    if up(i) && rest != [] {
      var page := Page(st, q.limit, q.forward, rest);
      var left := Beyond(q.forward, rest, page);
      PageThenLeft(st, q, rest);
      hide Page, Beyond, InOrder, StopsEarly, PageSize;
      var pages := FetchPages(st, q, left, up, i + 1);
      InOrderCons(q, page, pages);
      if StopsEarly(q.limit, page) {
        StretchGrows(q.forward, page, left, []);
      } else {
        PagesAreContiguous(st, q, left, up, i + 1);
        StretchGrows(q.forward, page, left, InOrder(q.forward, pages));
      }
    }
  }

  /** The beginning of a list when reading forward, its end when reading backward. */
  predicate Stretch(forward: bool, got: seq<KeyValue>, whole: seq<KeyValue>) {
    |got| <= |whole| && got == if forward then whole[..|got|] else whole[|whole| - |got|..]
  }

  lemma StretchGrows(forward: bool, a: seq<KeyValue>, rest: seq<KeyValue>, got: seq<KeyValue>)
    requires Stretch(forward, got, rest)
    ensures if forward then Stretch(true, a + got, a + rest) else Stretch(false, got + a, rest + a)
  {
    assert [] + a == a && a + [] == a;
  }

  // ---------------------------------------------------------------- what is handed out

  /** The entry has a message, and the message a content topic for which a decoder is given. */
  predicate Wanted(decoders: map<ContentTopic, int>, kv: KeyValue) {
    kv.message.Some? && kv.message.value.contentTopic != "" && kv.message.value.contentTopic in decoders
  }

  /**
   Item k comes from entry k: undefined exactly when no decoder of the query is for it, and
   otherwise its message, given to the decoder of its content topic with its own pubsub topic.
   */
  ghost predicate ItemsOf(decoders: map<ContentTopic, int>, entries: seq<KeyValue>, items: seq<Decoded>) {
    && |items| == |entries|
    && forall k :: 0 <= k < |items| ==>
         && (items[k] == Undefined <==> !Wanted(decoders, entries[k]))
         && (Wanted(decoders, entries[k]) ==>
               items[k] == DecodedBy(decoders[entries[k].message.value.contentTopic],
                                     match entries[k].pubsubTopic case None => "" case Some(t) => t,
                                     entries[k].message.value))
  }

  /** All the items yielded, oldest first, come from an unbroken stretch of the log from the cursor on. */
  ghost predicate YieldsStretch(decoders: map<ContentTopic, int>, forward: bool, log: seq<KeyValue>,
                                yielded: seq<seq<Decoded>>) {
    var items := InOrder(forward, yielded);
    |items| <= |log| && ItemsOf(decoders, if forward then log[..|items|] else log[|log| - |items|..], items)
  }

  /** All of them come from the whole log. */
  ghost predicate YieldsAll(decoders: map<ContentTopic, int>, forward: bool, log: seq<KeyValue>,
                            yielded: seq<seq<Decoded>>) {
    ItemsOf(decoders, log, InOrder(forward, yielded))
  }

  /** Pages of at most 100 entries, and a stream for every request. */
  ghost predicate Conforms(st: Store, up: nat -> bool) {
    st.cap <= 100 && forall k :: up(k)
  }

  lemma PageItems(decoders: map<ContentTopic, int>, page: seq<KeyValue>)
    ensures ItemsOf(decoders, page, DecodePage(decoders, page))
  {
  }

  lemma ItemsConcat(decoders: map<ContentTopic, int>, a: seq<KeyValue>, x: seq<Decoded>,
                    b: seq<KeyValue>, y: seq<Decoded>)
    requires ItemsOf(decoders, a, x) && ItemsOf(decoders, b, y)
    ensures ItemsOf(decoders, a + b, x + y)
  {
    hide Wanted;
  }

  lemma {:induction false} PagesItems(decoders: map<ContentTopic, int>, forward: bool, pages: seq<seq<KeyValue>>)
    ensures ItemsOf(decoders, InOrder(forward, pages), InOrder(forward, DecodePages(decoders, pages)))
  {
    if pages != [] {
      var rest := InOrder(forward, DecodePages(decoders, pages[1..]));
      PagesItems(decoders, forward, pages[1..]);
      assert DecodePages(decoders, pages)[1..] == DecodePages(decoders, pages[1..]);
      PageItems(decoders, pages[0]);
      hide DecodePage, ItemsOf;
      ItemsConcat(decoders, pages[0], DecodePage(decoders, pages[0]), InOrder(forward, pages[1..]), rest);
      ItemsConcat(decoders, InOrder(forward, pages[1..]), rest, pages[0], DecodePage(decoders, pages[0]));
    }
  }

  lemma YieldedIsDecoded(st: Store, q: Query, decoders: map<ContentTopic, int>, log: seq<KeyValue>, up: nat -> bool)
    requires ValidStore(st) && Matching(st, q) == Ok(log)
    ensures YieldsStretch(decoders, q.forward, log, DecodePages(decoders, FetchPages(st, q, log, up, 0)))
    ensures Conforms(st, up) ==>
              YieldsAll(decoders, q.forward, log, DecodePages(decoders, FetchPages(st, q, log, up, 0)))
  {
    var pages := FetchPages(st, q, log, up, 0);
    PagesAreContiguous(st, q, log, up, 0);
    PagesItems(decoders, q.forward, pages);
    if Conforms(st, up) {
      ConformingStoreIsComplete(st, q, up);
    }
    hide FetchPages, InOrder, Wanted, DecodePages, Matching;
  }
}
