/** The sticker store held by the application shell: an ordered list of sticker
    records, replaced wholesale on every add, move, delete and clear.

    Record updates are pure (`Moved` is the source's `map`, `Without` its
    `filter`); the list itself is a state cell, modelled as the field of
    `StickerStore`. The browser's `Math.random` and `Date.now` are not modelled:
    the random fractions and the fresh id are parameters of `AddSticker`.
 */
module Store {
  import opened Grid

  const CanvasWidth: real := 600.0
  const CanvasHeight: real := 400.0
  /** Width and height of every sticker. */
  const StickerSize: real := 60.0
  /** Largest coordinates a sticker's top-left corner may take: 540 and 340. */
  const MaxX: real := CanvasWidth - StickerSize
  const MaxY: real := CanvasHeight - StickerSize

  datatype Sticker = Sticker(id: string, emoji: string, x: real, y: real, width: real, height: real)

  datatype Position = Position(x: real, y: real)

  function Max(a: real, b: real): real { if a < b then b else a }
  function Min(a: real, b: real): real { if a < b then a else b }

  /** `Math.max(0, Math.min(hi, v))`: `v` kept inside `[0, hi]`. */
  function Clamp(v: real, hi: real): (r: real)
    requires 0.0 <= hi
    ensures 0.0 <= r <= hi
    ensures 0.0 <= v <= hi ==> r == v
    ensures v < 0.0 ==> r == 0.0
    ensures hi < v ==> r == hi
  {
    Max(0.0, Min(hi, v))
  }

  /** `getRandomPosition`: random fractions `rx`, `ry` in `[0, 1)` scaled to the
      free area and snapped to the grid. */
  function RandomPosition(rx: real, ry: real): (p: Position)
    requires 0.0 <= rx < 1.0 && 0.0 <= ry < 1.0
    ensures OnGrid(p.x) && 0.0 <= p.x <= 520.0
    ensures OnGrid(p.y) && 0.0 <= p.y <= 320.0
  {
    SnapMonotone(0.0, rx * MaxX);
    SnapMonotone(0.0, ry * MaxY);
    Position(Snap(rx * MaxX), Snap(ry * MaxY))
  }

  /** Every grid point of `[0, 520] x [0, 320]` is produced by some pair of
      random fractions: the range of `RandomPosition` is exactly those points. */
  lemma RandomPositionCovers(x: real, y: real)
    requires OnGrid(x) && 0.0 <= x <= 520.0
    requires OnGrid(y) && 0.0 <= y <= 320.0
    ensures 0.0 <= x / MaxX < 1.0 && 0.0 <= y / MaxY < 1.0
    ensures RandomPosition(x / MaxX, y / MaxY) == Position(x, y)
  {
    assert (x / MaxX) * MaxX == x;
    assert (y / MaxY) * MaxY == y;
    SnapFixesGrid(x);
    SnapFixesGrid(y);
  }

  /** A sticker the store can hold: inside the free area, 60 x 60. */
  predicate InCanvas(t: Sticker) {
    0.0 <= t.x <= MaxX && 0.0 <= t.y <= MaxY && t.width == StickerSize && t.height == StickerSize
  }

  function Ids(s: seq<Sticker>): set<string> {
    set i | 0 <= i < |s| :: s[i].id
  }

  predicate DistinctIds(s: seq<Sticker>) {
    forall i, j :: 0 <= i < j < |s| ==> s[i].id != s[j].id
  }

  /** The store's invariant: ids pairwise distinct and every sticker in bounds. */
  predicate WellFormed(s: seq<Sticker>) {
    DistinctIds(s) && forall i :: 0 <= i < |s| ==> InCanvas(s[i])
  }

  /** The record `addSticker` appends. */
  function NewSticker(id: string, emoji: string, rx: real, ry: real): (t: Sticker)
    requires 0.0 <= rx < 1.0 && 0.0 <= ry < 1.0
    ensures t.id == id && t.emoji == emoji && InCanvas(t)
    ensures t.x == RandomPosition(rx, ry).x && t.y == RandomPosition(rx, ry).y
  {
    var position := RandomPosition(rx, ry);
    Sticker(id, emoji, position.x, position.y, StickerSize, StickerSize)
  }

  /** Appending a sticker with a fresh id keeps the invariant. */
  lemma AppendKeepsWellFormed(s: seq<Sticker>, t: Sticker)
    requires WellFormed(s) && InCanvas(t) && t.id !in Ids(s)
    ensures WellFormed(s + [t])
    ensures Ids(s + [t]) == Ids(s) + {t.id}
  {
    var r := s + [t];
    forall i, j | 0 <= i < j < |r|
      ensures r[i].id != r[j].id
    {
      if j == |s| {
        assert r[i].id == s[i].id && s[i].id in Ids(s);
      }
    }
    forall id | id in Ids(r)
      ensures id in Ids(s) + {t.id}
    {
      var i :| 0 <= i < |r| && r[i].id == id;
      if i < |s| { assert s[i].id == id; }
    }
    forall id | id in Ids(s) + {t.id}
      ensures id in Ids(r)
    {
      if id == t.id {
        assert r[|s|].id == id;
      } else {
        var i :| 0 <= i < |s| && s[i].id == id;
        assert r[i].id == id;
      }
    }
  }

  /** `updateStickerPosition`'s `map`: every record with the given id gets the
      clamped position; nothing else about any record changes. */
  function Moved(s: seq<Sticker>, id: string, x: real, y: real): (r: seq<Sticker>)
    ensures |r| == |s|
    ensures forall i :: 0 <= i < |s| ==>
      r[i].id == s[i].id && r[i].emoji == s[i].emoji && r[i].width == s[i].width && r[i].height == s[i].height
    ensures forall i :: 0 <= i < |s| && s[i].id != id ==> r[i] == s[i]
    ensures forall i :: 0 <= i < |s| && s[i].id == id ==> r[i].x == Clamp(x, MaxX) && r[i].y == Clamp(y, MaxY)
  {
    if s == [] then []
    else
      var head := if s[0].id == id then s[0].(x := Clamp(x, MaxX), y := Clamp(y, MaxY)) else s[0];
      [head] + Moved(s[1..], id, x, y)
  }

  /** Moving a sticker whose id is absent changes nothing. */
  lemma MovedAbsent(s: seq<Sticker>, id: string, x: real, y: real)
    requires id !in Ids(s)
    ensures Moved(s, id, x, y) == s
  {
    var r := Moved(s, id, x, y);
    forall i | 0 <= i < |s| ensures r[i] == s[i] {
      assert s[i].id in Ids(s);
    }
  }

  /** Repeating a move is the same as doing it once. */
  lemma MovedIdempotent(s: seq<Sticker>, id: string, x: real, y: real)
    ensures Moved(Moved(s, id, x, y), id, x, y) == Moved(s, id, x, y)
  {
  }

  /** Moving keeps the invariant, whatever the requested coordinates. */
  lemma MovedKeepsWellFormed(s: seq<Sticker>, id: string, x: real, y: real)
    requires WellFormed(s)
    ensures WellFormed(Moved(s, id, x, y))
    ensures Ids(Moved(s, id, x, y)) == Ids(s)
  {
    var r := Moved(s, id, x, y);
    forall k | k in Ids(r) ensures k in Ids(s) {
      var i :| 0 <= i < |r| && r[i].id == k;
      assert s[i].id == k;
    }
    forall k | k in Ids(s) ensures k in Ids(r) {
      var i :| 0 <= i < |s| && s[i].id == k;
      assert r[i].id == k;
    }
  }

  /** `deleteSticker`'s `filter`: exactly the records with another id remain. */
  function Without(s: seq<Sticker>, id: string): (r: seq<Sticker>)
    ensures |r| <= |s|
    ensures forall t :: t in r <==> t in s && t.id != id
  {
    if s == [] then []
    else (if s[0].id == id then [] else [s[0]]) + Without(s[1..], id)
  }

  /** Deleting distributes over concatenation: the survivors keep their order. */
  lemma {:induction false} WithoutAppend(a: seq<Sticker>, b: seq<Sticker>, id: string)
    ensures Without(a + b, id) == Without(a, id) + Without(b, id)
  {
    if a == [] {
      assert a + b == b;
    } else {
      assert (a + b)[1..] == a[1..] + b;
      WithoutAppend(a[1..], b, id);
    }
  }

  lemma IdsCons(s: seq<Sticker>)
    requires s != []
    ensures Ids(s) == {s[0].id} + Ids(s[1..])
  {
    forall k | k in Ids(s) ensures k in {s[0].id} + Ids(s[1..]) {
      var i :| 0 <= i < |s| && s[i].id == k;
      if i > 0 { assert s[1..][i - 1].id == k; }
    }
    forall k | k in Ids(s[1..]) ensures k in Ids(s) {
      var i :| 0 <= i < |s[1..]| && s[1..][i].id == k;
      assert s[i + 1].id == k;
    }
  }

  lemma DistinctCons(s: seq<Sticker>)
    requires s != []
    ensures DistinctIds(s) <==> s[0].id !in Ids(s[1..]) && DistinctIds(s[1..])
  {
    if DistinctIds(s) {
      forall i | 0 <= i < |s[1..]| ensures s[1..][i].id != s[0].id {
        assert s[1..][i] == s[i + 1];
      }
      forall i, j | 0 <= i < j < |s[1..]| ensures s[1..][i].id != s[1..][j].id {
        assert s[1..][i] == s[i + 1] && s[1..][j] == s[j + 1];
      }
    }
    if s[0].id !in Ids(s[1..]) && DistinctIds(s[1..]) {
      forall i, j | 0 <= i < j < |s| ensures s[i].id != s[j].id {
        assert s[j] == s[1..][j - 1];
        if i > 0 { assert s[i] == s[1..][i - 1]; }
      }
    }
  }

  /** Deleting an absent id changes nothing. */
  lemma {:induction false} WithoutAbsent(s: seq<Sticker>, id: string)
    requires id !in Ids(s)
    ensures Without(s, id) == s
  {
    if s != [] {
      IdsCons(s);
      WithoutAbsent(s[1..], id);
      assert s == [s[0]] + s[1..];
    }
  }

  /** Deleting removes exactly the given id from the set of ids. */
  lemma {:induction false} WithoutIds(s: seq<Sticker>, id: string)
    ensures Ids(Without(s, id)) == Ids(s) - {id}
  {
    if s == [] {
    } else {
      IdsCons(s);
      WithoutIds(s[1..], id);
      var r := Without(s, id);
      if s[0].id == id {
        assert r == Without(s[1..], id);
      } else {
        assert r == [s[0]] + Without(s[1..], id);
        assert r[1..] == Without(s[1..], id);
        IdsCons(r);
      }
    }
  }

  /** Deleting twice is the same as deleting once. */
  lemma WithoutIdempotent(s: seq<Sticker>, id: string)
    ensures Without(Without(s, id), id) == Without(s, id)
  {
    WithoutIds(s, id);
    WithoutAbsent(Without(s, id), id);
  }

  /** With distinct ids, deleting a present id removes exactly one record. */
  lemma {:induction false} WithoutRemovesOne(s: seq<Sticker>, id: string)
    requires DistinctIds(s) && id in Ids(s)
    ensures |Without(s, id)| == |s| - 1
  {
    IdsCons(s);
    DistinctCons(s);
    if s[0].id == id {
      WithoutAbsent(s[1..], id);
    } else {
      WithoutRemovesOne(s[1..], id);
    }
  }

  /** Deleting keeps ids pairwise distinct. */
  lemma {:induction false} WithoutKeepsDistinct(s: seq<Sticker>, id: string)
    requires DistinctIds(s)
    ensures DistinctIds(Without(s, id))
  {
    if s != [] {
      DistinctCons(s);
      WithoutKeepsDistinct(s[1..], id);
      var r := Without(s, id);
      if s[0].id != id {
        assert r == [s[0]] + Without(s[1..], id);
        assert r[1..] == Without(s[1..], id);
        WithoutIds(s[1..], id);
        DistinctCons(r);
      }
    }
  }

  /** Deleting keeps the invariant and removes exactly the given id. */
  lemma WithoutKeepsWellFormed(s: seq<Sticker>, id: string)
    requires WellFormed(s)
    ensures WellFormed(Without(s, id))
    ensures Ids(Without(s, id)) == Ids(s) - {id}
  {
    WithoutKeepsDistinct(s, id);
    WithoutIds(s, id);
    var r := Without(s, id);
    forall i | 0 <= i < |r| ensures InCanvas(r[i]) {
      assert r[i] in r;
    }
  }

  /** The application shell's sticker list and the four callbacks that replace it. */
  class StickerStore {
    var stickers: seq<Sticker>

    ghost predicate Valid()
      reads this
    {
      WellFormed(stickers)
    }

    /** The list starts empty. */
    constructor ()
      ensures Valid() && stickers == []
    {
      stickers := [];
    }

    /** `addSticker`: appends one 60 x 60 sticker with the given emoji at the
        snapped random position; `id` stands for the generated fresh id. */
    method AddSticker(emoji: string, rx: real, ry: real, id: string)
      requires Valid()
      requires 0.0 <= rx < 1.0 && 0.0 <= ry < 1.0
      requires id !in Ids(stickers)
      modifies this
      ensures Valid()
      ensures stickers == old(stickers) + [NewSticker(id, emoji, rx, ry)]
      ensures Ids(stickers) == old(Ids(stickers)) + {id}
    {
      var newSticker := NewSticker(id, emoji, rx, ry);
      AppendKeepsWellFormed(stickers, newSticker);
      stickers := stickers + [newSticker];
    }

    /** `updateStickerPosition`: the record with this id gets the clamped position. */
    method UpdateStickerPosition(id: string, x: real, y: real)
      requires Valid()
      modifies this
      ensures Valid()
      ensures stickers == Moved(old(stickers), id, x, y)
      ensures Ids(stickers) == old(Ids(stickers))
    {
      MovedKeepsWellFormed(stickers, id, x, y);
      stickers := Moved(stickers, id, x, y);
    }

    /** `deleteSticker`: every record with this id is removed. */
    method DeleteSticker(id: string)
      requires Valid()
      modifies this
      ensures Valid()
      ensures stickers == Without(old(stickers), id)
      ensures Ids(stickers) == old(Ids(stickers)) - {id}
    {
      WithoutKeepsWellFormed(stickers, id);
      stickers := Without(stickers, id);
    }

    /** `clearAllStickers`: the list becomes empty. */
    method ClearAllStickers()
      requires Valid()
      modifies this
      ensures Valid() && stickers == []
    {
      stickers := [];
    }
  }
}
