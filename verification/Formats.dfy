/** The formats a configuration asks for. */
module Formats {
  import opened Blocks

  // In the order of their configuration ids; all of them are measured when no known one is asked for.
  const FORMAT_CODES: seq<int> := [RLE4K, GZIP, LZO2, SNAPPY, ZSTD, BROTLI]

  function MapFormatId(id: int): int {
    if id < 0 || id >= |FORMAT_CODES| then -1 else FORMAT_CODES[id]
  }

  predicate KnownId(id: int) {
    0 <= id < |FORMAT_CODES|
  }

  function Mapped(ids: seq<int>): seq<int> {
    if ids == [] then []
    else
      var f := MapFormatId(ids[|ids| - 1]);
      Mapped(ids[..|ids| - 1]) + if f >= 0 then [f] else []
  }

  method SelectFormats(ids: seq<int>) returns (fmts: seq<int>)
    ensures fmts == if Mapped(ids) == [] then [0x4, 0x7, 0xB, 0xA, 0x8, 0xF] else Mapped(ids)
  {
    fmts := [];
    for i := 0 to |ids|
      invariant fmts == Mapped(ids[..i])
    {
      assert ids[..i + 1][..i] == ids[..i];
      var f := MapFormatId(ids[i]);
      if f >= 0 {
        fmts := fmts + [f];
      }
    }
    assert ids[..|ids|] == ids;
    if fmts == [] {
      fmts := FORMAT_CODES;
    }
  }

  /** The code of each configuration id; every other id is unknown. */
  lemma FormatOfId(id: int)
    ensures MapFormatId(id) ==
            match id
            case 0 => 0x4 case 1 => 0x7 case 2 => 0xB case 3 => 0xA case 4 => 0x8 case 5 => 0xF case _ => -1
  {
  }

  lemma MapTellsApart(i: int, j: int)
    requires KnownId(i)
    ensures MapFormatId(i) >= 0 && (MapFormatId(i) == MapFormatId(j) <==> i == j)
  {
  }

  lemma MappedSnoc(ids: seq<int>, id: int)
    ensures Mapped(ids + [id]) == Mapped(ids) + if MapFormatId(id) >= 0 then [MapFormatId(id)] else []
  {
    assert (ids + [id])[..|ids|] == ids;
  }

  /** The formats come in the order of the ids. */
  lemma {:induction false} MappedInOrder(ids: seq<int>, more: seq<int>)
    ensures Mapped(ids + more) == Mapped(ids) + Mapped(more)
    decreases |more|
  {
    if more == [] {
      assert ids + more == ids;
    } else {
      var front, last := more[..|more| - 1], more[|more| - 1];
      MappedInOrder(ids, front);
      assert ids + more == (ids + front) + [last] && more == front + [last];
      MappedSnoc(ids + front, last);
      MappedSnoc(front, last);
    }
  }

  /** Every known id is measured as often as it is listed, in a format no other id selects; unknown ids are dropped. */
  lemma {:induction false} MappedCounts(ids: seq<int>, id: int)
    requires KnownId(id)
    ensures multiset(Mapped(ids))[MapFormatId(id)] == multiset(ids)[id]
  {
    if ids != [] {
      var front, last := ids[..|ids| - 1], ids[|ids| - 1];
      MappedCounts(front, id);
      assert ids == front + [last];
      MappedSnoc(front, last);
      MapTellsApart(id, last);
    }
  }

  /** All formats are measured exactly when no listed id is known. */
  lemma {:induction false} NothingMapped(ids: seq<int>)
    ensures Mapped(ids) == [] <==> forall id :: id in ids ==> !KnownId(id)
  {
    if ids != [] {
      var front, last := ids[..|ids| - 1], ids[|ids| - 1];
      NothingMapped(front);
      assert ids == front + [last];
      MappedSnoc(front, last);
      assert last in ids;
    }
  }
}
