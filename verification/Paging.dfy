/** Offset reads over a repository that only hands out pages: the loop of `list_evidence`
    (and of `list_signals`, which is the same loop). */
module Paging {
  import opened Wrappers
  import opened Offsets
  import Utf8

  datatype Page<T> = Page(items: seq<T>, next: Option<string>)

  type Source<!T> = (nat, Option<string>) -> Result<Page<T>, TokenError>

  const MAX_LIMIT: nat := 1000

  function Min(a: nat, b: nat): nat { if a < b then a else b }

  function Flatten<T>(pages: seq<seq<T>>): seq<T> {
    if pages == [] then [] else pages[0] + Flatten(pages[1..])
  }

  /** Reading page after page with `limit`, the source hands out exactly `pages`. */
  ghost predicate Pages<T(!new)>(source: Source<T>, limit: nat, token: Option<string>, pages: seq<seq<T>>)
    decreases |pages|
  {
    && pages != []
    && source(limit, token).Success?
    && var page := source(limit, token).value;
       && page.items == pages[0]
       && (page.next.None? <==> |pages| == 1)
       && (page.next.Some? ==> Pages(source, limit, page.next, pages[1..]))
  }

  /** Python's `items[start:start + limit]`. */
  function Window<T>(items: seq<T>, start: nat, limit: nat): seq<T> {
    items[Min(start, |items|)..Min(Min(start, |items|) + limit, |items|)]
  }

  /** What the loop returns, page by page: the window into the first page that reaches
      beyond `offset`, or into the last one. */
  function Slice<T>(pages: seq<seq<T>>, offset: nat, limit: nat): (r: seq<T>)
    requires pages != []
  {
    if offset < |pages[0]| || |pages| == 1 then Window(pages[0], offset, limit)
    else Slice(pages[1..], offset - |pages[0]|, limit)
  }

  /** `list_evidence`: `pages` are what the source hands out for this page limit. */
  method ListEvidence<T(!new)>(source: Source<T>, limit: nat, offset: nat, ghost pages: seq<seq<T>>)
    returns (r: seq<T>)
    requires Pages(source, Min(MAX_LIMIT, offset + limit), None, pages)
    ensures r == Slice(pages, offset, limit)
  {
    var size := Min(MAX_LIMIT, offset + limit);
    var token: Option<string> := None;
    var skipped: nat := 0;
    ghost var rest := pages;
    while true
      invariant Pages(source, size, token, rest)
      invariant skipped <= offset && Slice(pages, offset, limit) == Slice(rest, offset - skipped, limit)
      decreases |rest|
    {
      var page := source(size, token).value;
      if skipped + |page.items| > offset || page.next.None? {
        return Window(page.items, offset - skipped, limit);
      }
      skipped := skipped + |page.items|;
      token := page.next;
      rest := rest[1..];
    }
  }

  /** Where the page holding position `offset` ends in the flat list. */
  function PageEnd<T>(pages: seq<seq<T>>, offset: nat): (end: nat)
    requires offset < |Flatten(pages)|
    ensures offset < end <= |Flatten(pages)|
  {
    if offset < |pages[0]| then |pages[0]| else |pages[0]| + PageEnd(pages[1..], offset - |pages[0]|)
  }

  function Cut<T>(pages: seq<seq<T>>, offset: nat, limit: nat): seq<T> {
    if offset >= |Flatten(pages)| then []
    else Flatten(pages)[offset..Min(offset + limit, PageEnd(pages, offset))]
  }

  lemma CutInFirst<T>(pages: seq<seq<T>>, offset: nat, limit: nat)
    requires pages != [] && (offset < |pages[0]| || |pages| == 1)
    ensures Cut(pages, offset, limit) == Window(pages[0], offset, limit)
  {
    if |pages| == 1 {
      assert Flatten(pages[1..]) == [];
    }
  }

  lemma CutInRest<T>(pages: seq<seq<T>>, offset: nat, limit: nat)
    requires pages != [] && offset >= |pages[0]|
    ensures Cut(pages, offset, limit) == Cut(pages[1..], offset - |pages[0]|, limit)
  {
    var all, tail := Flatten(pages), Flatten(pages[1..]);
    if offset < |all| {
      var end := Min(offset + limit, PageEnd(pages, offset));
      assert all[offset..end] == tail[offset - |pages[0]|..end - |pages[0]|];
    }
  }

  /** In terms of the flat list: the wanted slice, cut off where the page holding `offset`
      ends. */
  lemma {:induction false} SliceInFlatList<T>(pages: seq<seq<T>>, offset: nat, limit: nat)
    requires pages != []
    ensures Slice(pages, offset, limit) == Cut(pages, offset, limit)
  {
    if offset < |pages[0]| || |pages| == 1 {
      CutInFirst(pages, offset, limit);
    } else {
      CutInRest(pages, offset, limit);
      SliceInFlatList(pages[1..], offset - |pages[0]|, limit);
    }
  }

  /** Whatever the paging, the result is a prefix of the wanted slice, empty only past the
      end; and it is the whole slice exactly when one page covers it. */
  lemma SliceOfAnyPaging<T>(pages: seq<seq<T>>, offset: nat, limit: nat)
    requires pages != []
    ensures var all := Flatten(pages);
      var wanted := Window(all, offset, limit);
      && Slice(pages, offset, limit) <= wanted
      && (limit > 0 ==> (Slice(pages, offset, limit) == [] <==> offset >= |all|))
      && (Slice(pages, offset, limit) == wanted
          <==> offset >= |all| || Min(offset + limit, |all|) <= PageEnd(pages, offset))
  {
    var all := Flatten(pages);
    SliceInFlatList(pages, offset, limit);
    if offset < |all| {
      var end, whole := Min(offset + limit, PageEnd(pages, offset)), Min(offset + limit, |all|);
      assert Window(all, offset, limit) == all[offset..whole];
      assert all[offset..end] == all[offset..whole][..end - offset];
    }
  }

  /** The PostgreSQL adapter's `list` over the ordered rows `rows`: one row more than asked
      for tells whether there is a next page. */
  function PostgresSource<T>(rows: seq<T>, codec: Codec): Source<T> {
    (limit: nat, token: Option<string>) =>
      match codec.decode(token)
      case Failure(e) => Failure(e)
      case Success(offset) =>
        var fetched := Window(rows, offset, limit + 1);
        Success(Page(fetched[..Min(limit, |fetched|)],
                     if |fetched| > limit then Some(codec.encode(offset, limit)) else None))
  }

  /** Its pages: full ones, and a last one with what is left. */
  function FullPages<T>(rows: seq<T>, limit: nat): (pages: seq<seq<T>>)
    requires limit > 0
    ensures pages != []
  {
    if |rows| <= limit then [rows] else [rows[..limit]] + FullPages(rows[limit..], limit)
  }

  lemma {:induction false} FullPagesFlatten<T>(rows: seq<T>, limit: nat)
    requires limit > 0
    ensures Flatten(FullPages(rows, limit)) == rows
    decreases |rows|
  {
    if |rows| <= limit {
      assert Flatten([rows]) == rows + Flatten([rows][1..]);
    } else {
      FullPagesFlatten(rows[limit..], limit);
      assert FullPages(rows, limit)[1..] == FullPages(rows[limit..], limit);
    }
  }

  lemma PostgresPage<T>(rows: seq<T>, codec: Codec, limit: nat, token: Option<string>, offset: nat)
    requires limit > 0 && codec.decode(token) == Success(offset) && offset <= |rows|
    ensures PostgresSource(rows, codec)(limit, token)
         == Success(Page(FullPages(rows[offset..], limit)[0],
                         if |rows| - offset > limit then Some(codec.encode(offset, limit)) else None))
  {
    var fetched, rest := Window(rows, offset, limit + 1), rows[offset..];
    assert |fetched| == Min(limit + 1, |rest|);
    assert fetched[..Min(limit, |fetched|)] == rest[..Min(limit, |rest|)];
    assert FullPages(rest, limit)[0] == rest[..Min(limit, |rest|)];
  }

  /** The adapter's pages are full: only the last one can be shorter than asked for. */
  lemma {:induction false} PostgresPages<T(!new)>(rows: seq<T>, codec: Codec, limit: nat,
                                           token: Option<string>, offset: nat)
    requires codec.Lawful() && limit > 0
    requires codec.decode(token) == Success(offset) && offset <= |rows|
    ensures Pages(PostgresSource(rows, codec), limit, token, FullPages(rows[offset..], limit))
    decreases |rows| - offset
  {
    PostgresPage(rows, codec, limit, token, offset);
    if |rows| - offset > limit {
      PostgresPages(rows, codec, limit, Some(codec.encode(offset, limit)), offset + limit);
      assert rows[offset..][limit..] == rows[offset + limit..];
      assert FullPages(rows[offset..], limit)[1..] == FullPages(rows[offset + limit..], limit);
    }
  }

  /** The first page border beyond `offset` when every page has `size` rows. */
  function Border(offset: nat, size: nat): (b: nat)
    requires size > 0
    ensures offset < b <= offset + size
  {
    if offset < size then size else size + Border(offset - size, size)
  }

  lemma {:induction false} PageEndOfFullPages<T>(rows: seq<T>, size: nat, offset: nat)
    requires size > 0 && offset < |rows|
    ensures Flatten(FullPages(rows, size)) == rows
    ensures PageEnd(FullPages(rows, size), offset) == Min(Border(offset, size), |rows|)
    decreases |rows|
  {
    FullPagesFlatten(rows, size);
    if size <= offset {
      FullPagesFlatten(rows[size..], size);
      PageEndOfFullPages(rows[size..], size, offset - size);
      assert FullPages(rows, size)[1..] == FullPages(rows[size..], size);
    }
  }

  /** Over PostgreSQL the loop returns the wanted slice exactly when that slice does not
      cross a page border, which it never does while `offset + limit <= 1000`. */
  lemma PostgresSlice<T>(rows: seq<T>, offset: nat, limit: nat)
    requires limit > 0
    ensures var size := Min(MAX_LIMIT, offset + limit);
      var whole := Window(rows, offset, limit);
      && (Slice(FullPages(rows, size), offset, limit) == whole
          <==> offset >= |rows| || Min(offset + limit, |rows|) <= Border(offset, size))
      && (offset + limit <= 1000 ==> Slice(FullPages(rows, size), offset, limit) == whole)
  {
    var size := Min(MAX_LIMIT, offset + limit);
    FullPagesFlatten(rows, size);
    SliceOfAnyPaging(FullPages(rows, size), offset, limit);
    if offset < |rows| {
      PageEndOfFullPages(rows, size, offset);
    }
  }

  /** `list_evidence` over the PostgreSQL adapter, its real tokens included. */
  method ListOverPostgres<T(!new)>(rows: seq<T>, parse: string -> Option<int>, limit: nat, offset: nat)
    returns (r: seq<T>)
    requires ReadsNumerals(parse) && limit > 0
    ensures r <= Window(rows, offset, limit)
    ensures offset + limit <= 1000 ==> r == Window(rows, offset, limit)
  {
    var codec := PostgresCodec(Utf8.UTF8, parse);
    ghost var size := Min(MAX_LIMIT, offset + limit);
    Utf8.Utf8IsLawful();
    PostgresCodecIsLawful(Utf8.UTF8, parse);
    PostgresPages(rows, codec, size, None, 0);
    assert rows[0..] == rows;
    PostgresSlice(rows, offset, limit);
    FullPagesFlatten(rows, size);
    SliceOfAnyPaging(FullPages(rows, size), offset, limit);
    r := ListEvidence(PostgresSource(rows, codec), limit, offset, FullPages(rows, size));
  }
}
