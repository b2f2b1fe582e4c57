/** The canvas component: the per-sticker drag, double-click and hover handlers,
    the clear-all control, and where a dragged sticker comes to rest.

    Rendering, glyph rasterisation and image export are not modelled; the
    component's one piece of its own state, the hovered sticker's id, is.
 */
module Canvas {
  import opened Grid
  import opened Store

  datatype Option<T> = None | Some(value: T)

  /** Where a drag released at `v` comes to rest along an axis whose largest
      coordinate is `hi`: the canvas snaps it, the store clamps it. */
  function Settle(v: real, hi: real): (r: real)
    requires 0.0 <= hi
    ensures Settled(r, hi)
    ensures 0.0 <= Snap(v) <= hi ==> r == Snap(v)
  {
    assert OnGrid(0.0);
    Clamp(Snap(v), hi)
  }

  /** A resting coordinate: a grid line inside `[0, hi]`, or `hi` itself. */
  predicate Settled(v: real, hi: real) {
    v == hi || (OnGrid(v) && 0.0 <= v <= hi)
  }

  /** Every sticker of `s` rests on a grid line or on the right or bottom edge. */
  predicate AllSettled(s: seq<Sticker>) {
    forall i :: 0 <= i < |s| ==> Settled(s[i].x, MaxX) && Settled(s[i].y, MaxY)
  }

  /** On an axis whose bound lies half a cell past the grid line `m * 40`, the
      resting place is the edge exactly when the release point is at or past the
      edge, 0 when it is before the first half cell, and the snapped point
      otherwise (which is then a grid line strictly inside the bound). */
  lemma SettleCases(v: real, m: nat)
    ensures var hi := m as real * GridSize + GridSize / 2.0;
      Settle(v, hi) == (if hi <= v then hi else if v < GridSize / 2.0 then 0.0 else Snap(v))
    ensures var hi := m as real * GridSize + GridSize / 2.0;
      GridSize / 2.0 <= v < hi ==> 0.0 < Snap(v) < hi
  {
    var hi := m as real * GridSize + GridSize / 2.0;
    var n := Round(v / GridSize);
    assert Snap(v) == n as real * GridSize;
    if hi <= v {
      assert n >= m + 1;
    } else if v < GridSize / 2.0 {
      assert n <= 0;
    } else {
      assert 1 <= n <= m;
    }
  }

  /** 540 is 13 cells and a half, 340 is 8 cells and a half: neither is a grid line. */
  lemma EdgesOffGrid()
    ensures MaxX == 13.0 * GridSize + GridSize / 2.0 && !OnGrid(MaxX)
    ensures MaxY == 8.0 * GridSize + GridSize / 2.0 && !OnGrid(MaxY)
  {
    assert (MaxX / GridSize).Floor == 13;
    assert (MaxY / GridSize).Floor == 8;
  }

  /** A drag released anywhere, however far outside the canvas, comes to rest
      on a grid line inside the free area or on its right or bottom edge; it is
      off the grid exactly when the release point is at or past that edge. */
  lemma SettleLands(x: real, y: real)
    ensures Settled(Settle(x, MaxX), MaxX) && Settled(Settle(y, MaxY), MaxY)
    ensures OnGrid(Settle(x, MaxX)) <==> x < MaxX
    ensures OnGrid(Settle(y, MaxY)) <==> y < MaxY
  {
    EdgesOffGrid();
    SettleCases(x, 13);
    SettleCases(y, 8);
    assert OnGrid(0.0);
  }

  /** Drag end followed by the store update: every record with the dragged id
      rests at the settled coordinates, and the others do not move. */
  lemma DragEndLands(s: seq<Sticker>, id: string, x: real, y: real)
    ensures var r := Moved(s, id, Snap(x), Snap(y));
      forall i :: 0 <= i < |r| && r[i].id == id ==>
        r[i].x == Settle(x, MaxX) && r[i].y == Settle(y, MaxY) &&
        Settled(r[i].x, MaxX) && Settled(r[i].y, MaxY)
    ensures var r := Moved(s, id, Snap(x), Snap(y));
      forall i :: 0 <= i < |r| && r[i].id != id ==> r[i] == s[i]
  {
    SettleLands(x, y);
  }

  /** Drag end keeps every sticker at rest. */
  lemma DragEndKeepsSettled(s: seq<Sticker>, id: string, x: real, y: real)
    requires AllSettled(s)
    ensures AllSettled(Moved(s, id, Snap(x), Snap(y)))
  {
    DragEndLands(s, id, x, y);
  }

  /** A new sticker starts at rest, so adding keeps every sticker at rest. */
  lemma AddKeepsSettled(s: seq<Sticker>, id: string, emoji: string, rx: real, ry: real)
    requires AllSettled(s)
    requires 0.0 <= rx < 1.0 && 0.0 <= ry < 1.0
    ensures AllSettled(s + [NewSticker(id, emoji, rx, ry)])
  {
    var r := s + [NewSticker(id, emoji, rx, ry)];
    forall i | 0 <= i < |r| ensures Settled(r[i].x, MaxX) && Settled(r[i].y, MaxY) {
      if i < |s| { assert r[i] == s[i]; }
    }
  }

  /** Deleting keeps every remaining sticker at rest. */
  lemma DeleteKeepsSettled(s: seq<Sticker>, id: string)
    requires AllSettled(s)
    ensures AllSettled(Without(s, id))
  {
    var r := Without(s, id);
    forall i | 0 <= i < |r| ensures Settled(r[i].x, MaxX) && Settled(r[i].y, MaxY) {
      assert r[i] in r;
    }
  }

  /** `isHovered={hoveredSticker === sticker.id}`: the sticker `s` is drawn
      hovered when the hover cell holds `h`. */
  predicate Hovers(h: Option<string>, s: Sticker) {
    h == Some(s.id)
  }

  /** How many of the rendered stickers `s` are drawn hovered; none exactly when
      no sticker of `s` has the hovered id. */
  function HoveredCount(h: Option<string>, s: seq<Sticker>): (n: nat)
    ensures n <= |s|
    ensures n == 0 <==> forall i :: 0 <= i < |s| ==> !Hovers(h, s[i])
  {
    if s == [] then 0
    else (if Hovers(h, s[0]) then 1 else 0) + HoveredCount(h, s[1..])
  }

  /** While ids are distinct, exactly one rendered sticker is hovered when the
      cell holds a rendered id, and none otherwise. */
  lemma {:induction false} HoveredCountExact(h: Option<string>, s: seq<Sticker>)
    requires DistinctIds(s)
    ensures HoveredCount(h, s) == if h.Some? && h.value in Ids(s) then 1 else 0
  {
    if s != [] {
      IdsCons(s);
      DistinctCons(s);
      HoveredCountExact(h, s[1..]);
    }
  }

  /** The canvas component: reads and updates the shell's store through its
      callbacks, and keeps the hovered sticker's id. */
  class StickerCanvas {
    const store: StickerStore
    var hovered: Option<string>

    /** Besides the store's invariant, every sticker rests where the app puts
        it: on a grid line or on the right or bottom edge. */
    ghost predicate Valid()
      reads this, store
    {
      store.Valid() && AllSettled(store.stickers)
    }

    /** Nothing is hovered at first. */
    constructor (store: StickerStore)
      requires store.Valid() && AllSettled(store.stickers)
      ensures Valid() && this.store == store && hovered == None
    {
      this.store := store;
      hovered := None;
    }

    /** `isHovered` for one rendered sticker: nothing is hovered while the
        cell is empty, and a hovered sticker shares its id with every other
        hovered one. */
    function IsHovered(s: Sticker): (r: bool)
      reads this
      ensures hovered == None ==> !r
      ensures r ==> forall t: Sticker :: Hovers(hovered, t) <==> t.id == s.id
    {
      Hovers(hovered, s)
    }

    /** While ids are distinct, at most one rendered sticker is drawn hovered. */
    lemma AtMostOneHovered()
      requires Valid()
      ensures HoveredCount(hovered, store.stickers) <= 1
    {
      HoveredCountExact(hovered, store.stickers);
    }

    /** `handleDragEnd`: snaps the release point and forwards it, with the
        sticker's id, to the store's position update. */
    method HandleDragEnd(id: string, x: real, y: real)
      requires Valid()
      modifies store
      ensures Valid()
      ensures store.stickers == Moved(old(store.stickers), id, Snap(x), Snap(y))
    {
      var snappedX := Snap(x);
      var snappedY := Snap(y);
      DragEndKeepsSettled(store.stickers, id, x, y);
      store.UpdateStickerPosition(id, snappedX, snappedY);
    }

    /** The drag-end handler wired to one rendered sticker. */
    method DragEnd(s: Sticker, x: real, y: real)
      requires Valid()
      modifies store
      ensures Valid()
      ensures store.stickers == Moved(old(store.stickers), s.id, Snap(x), Snap(y))
    {
      HandleDragEnd(s.id, x, y);
    }

    /** The double-click handler wired to one rendered sticker: deletes its id. */
    method DoubleClick(s: Sticker)
      requires Valid()
      modifies store
      ensures Valid()
      ensures store.stickers == Without(old(store.stickers), s.id)
      ensures Ids(store.stickers) == old(Ids(store.stickers)) - {s.id}
    {
      DeleteKeepsSettled(store.stickers, s.id);
      store.DeleteSticker(s.id);
    }

    /** Mouse enter on one rendered sticker: it becomes the hovered one. */
    method MouseEnter(s: Sticker)
      modifies this`hovered
      ensures hovered == Some(s.id)
      ensures IsHovered(s)
      ensures forall t: Sticker :: IsHovered(t) <==> t.id == s.id
    {
      hovered := Some(s.id);
    }

    /** Mouse leave on any rendered sticker: nothing is hovered. */
    method MouseLeave()
      modifies this`hovered
      ensures hovered == None
      ensures forall t: Sticker :: !IsHovered(t)
    {
      hovered := None;
    }

    /** The clear-all control; it is disabled, so its click has no effect,
        while the list is empty. */
    method ClearAll()
      requires Valid()
      modifies store
      ensures Valid() && store.stickers == []
    {
      if |store.stickers| != 0 {
        store.ClearAllStickers();
      }
    }
  }

  /** A scenario: three stickers are added; the second is dragged to
      (1000, -50) and lands at (540, 0); the first is double-clicked away;
      then the canvas is cleared. */
  method Walkthrough(emoji: string, id1: string, id2: string, id3: string)
    returns (dragged: Sticker, remaining: nat, cleared: seq<Sticker>)
    requires id1 != id2 && id2 != id3 && id1 != id3
    ensures dragged.id == id2 && dragged.x == 540.0 && dragged.y == 0.0
    ensures remaining == 2
    ensures cleared == []
  {
    var store := new StickerStore();
    assert Ids(store.stickers) == {};
    store.AddSticker(emoji, 0.0, 0.0, id1);
    AddKeepsSettled([], id1, emoji, 0.0, 0.0);
    ghost var s1 := store.stickers;
    store.AddSticker(emoji, 0.5, 0.5, id2);
    AddKeepsSettled(s1, id2, emoji, 0.5, 0.5);
    ghost var s2 := store.stickers;
    store.AddSticker(emoji, 0.9, 0.9, id3);
    AddKeepsSettled(s2, id3, emoji, 0.9, 0.9);
    assert |store.stickers| == 3 && Ids(store.stickers) == {id1, id2, id3};
    assert store.stickers[1].id == id2;

    var canvas := new StickerCanvas(store);
    SettleCases(1000.0, 13);
    SettleCases(-50.0, 8);
    ghost var s3 := store.stickers;
    canvas.DragEnd(store.stickers[1], 1000.0, -50.0);
    DragEndLands(s3, id2, 1000.0, -50.0);
    dragged := store.stickers[1];

    canvas.DoubleClick(store.stickers[0]);
    WithoutRemovesOne(s3, id1);
    remaining := |store.stickers|;
    assert id1 !in Ids(store.stickers);

    canvas.ClearAll();
    cleared := store.stickers;
  }
}
