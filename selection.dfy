// Multi-select of photos in the gallery, with drag-painting: pressing on a
// photo fixes a paint mode (select or deselect) that every photo the pointer
// then passes over receives, until the pointer is released.

module Selection {
  import opened Wrappers

  /** The paint mode of a drag: 'select' or 'deselect'. */
  datatype DragMode = Select | Deselect

  /** The selection with the membership of `id` flipped. */
  function Toggled(s: set<string>, id: string): (r: set<string>)
    ensures id in r <==> id !in s
    ensures forall x :: x != id ==> (x in r <==> x in s)
  {
    if id in s then s - {id} else s + {id}
  }

  /** Toggling the same photo twice restores the selection. */
  lemma ToggleTwice(s: set<string>, id: string)
    ensures Toggled(Toggled(s, id), id) == s
  {
    var r := Toggled(Toggled(s, id), id);
    forall x ensures x in r <==> x in s {
      if x != id {
        assert x in Toggled(s, id) <==> x in s;
      }
    }
  }

  /** The selection after painting `id` with `mode`. */
  function Painted(s: set<string>, id: string, mode: DragMode): (r: set<string>)
    ensures id in r <==> mode == Select
    ensures forall x :: x != id ==> (x in r <==> x in s)
  {
    match mode
    case Select => s + {id}
    case Deselect => s - {id}
  }

  /** The mode a press fixes: 'select' when forced, otherwise the opposite
      of the pressed photo's current state. */
  function ModeFor(s: set<string>, id: string, force: bool): (m: DragMode)
    ensures m == Deselect <==> !force && id in s
  {
    if force then Select else if id in s then Deselect else Select
  }

  /** An unforced press acts on the pressed photo exactly like a toggle. */
  lemma PressTogglesPressedPhoto(s: set<string>, id: string)
    ensures Painted(s, id, ModeFor(s, id, false)) == Toggled(s, id)
  {
    var a, b := Painted(s, id, ModeFor(s, id, false)), Toggled(s, id);
    forall x ensures x in a <==> x in b {
    }
  }

  /** The selection after the pointer has passed over `ids` in order. */
  function PaintedAll(s: set<string>, ids: seq<string>, mode: DragMode): set<string>
    decreases |ids|
  {
    if ids == [] then s else PaintedAll(Painted(s, ids[0], mode), ids[1..], mode)
  }

  /** A drag paints every photo it passes over with its mode and leaves the
      others as they were, whatever the order or repetitions. */
  lemma {:induction false} PaintedAllMembers(s: set<string>, ids: seq<string>, mode: DragMode, x: string)
    ensures x in PaintedAll(s, ids, mode) <==> if x in ids then mode == Select else x in s
    decreases |ids|
  {
    if ids != [] {
      PaintedAllMembers(Painted(s, ids[0], mode), ids[1..], mode, x);
      assert x in ids <==> x == ids[0] || x in ids[1..];
    }
  }

  /** The state of usePhotoSelection. */
  class PhotoSelection {
    var selectMode: bool
    var selected: set<string>
    var dragging: bool
    var dragMode: Option<DragMode>

    /** A drag mode is set exactly while a drag is in progress. */
    ghost predicate Valid()
      reads this
    {
      dragging <==> dragMode.Some?
    }

    constructor()
      ensures Valid()
      ensures !selectMode && selected == {} && !dragging && dragMode == None
    {
      selectMode := false;
      selected := {};
      dragging := false;
      dragMode := None;
    }

    /** setIsSelectMode, handed out to the page as is. */
    method SetSelectMode(on: bool)
      modifies this
      ensures selectMode == on
      ensures selected == old(selected) && dragging == old(dragging) && dragMode == old(dragMode)
    {
      selectMode := on;
    }

    /** togglePhotoSelection. */
    method Toggle(id: string)
      modifies this
      ensures selected == Toggled(old(selected), id)
      ensures selectMode == old(selectMode) && dragging == old(dragging) && dragMode == old(dragMode)
    {
      var newSet := selected;
      if id in newSet {
        newSet := newSet - {id};
      } else {
        newSet := newSet + {id};
      }
      selected := newSet;
    }

    /** addToSelection: an already selected photo leaves the set as it is. */
    method Add(id: string)
      modifies this
      ensures selected == old(selected) + {id}
      ensures id in old(selected) ==> selected == old(selected)
      ensures selectMode == old(selectMode) && dragging == old(dragging) && dragMode == old(dragMode)
    {
      if id in selected {
        return;
      }
      selected := selected + {id};
    }

    /** handleSelectionMouseDown: outside select mode only a forced press
        does anything; a press starts a drag and paints the pressed photo. */
    method MouseDown(id: string, force: bool)
      requires Valid()
      modifies this
      ensures Valid()
      ensures selectMode == old(selectMode)
      ensures !old(selectMode) && !force ==>
        selected == old(selected) && dragging == old(dragging) && dragMode == old(dragMode)
      ensures old(selectMode) || force ==>
        && dragging
        && dragMode == Some(ModeFor(old(selected), id, force))
        && selected == Painted(old(selected), id, ModeFor(old(selected), id, force))
    {
      if !selectMode && !force {
        return;
      }
      dragging := true;
      var mode := if force then Select else (if id in selected then Deselect else Select);
      dragMode := Some(mode);
      if mode == Select {
        selected := selected + {id};
      } else {
        selected := selected - {id};
      }
    }

    /** handleSelectionMouseEnter: paints the photo under the pointer while
        a drag is in progress in select mode. */
    method MouseEnter(id: string)
      requires Valid()
      modifies this
      ensures Valid()
      ensures selectMode == old(selectMode) && dragging == old(dragging) && dragMode == old(dragMode)
      ensures old(selectMode && dragging && dragMode.Some?) ==> selected == Painted(old(selected), id, old(dragMode.value))
      ensures !old(selectMode && dragging && dragMode.Some?) ==> selected == old(selected)
    {
      if !selectMode || !dragging || dragMode.None? {
        return;
      }
      if dragMode.value == Select {
        selected := selected + {id};
      } else {
        selected := selected - {id};
      }
    }

    /** exitSelectMode. */
    method Exit()
      modifies this
      ensures Valid()
      ensures !selectMode && selected == {} && !dragging && dragMode == None
    {
      selectMode := false;
      selected := {};
      dragging := false;
      dragMode := None;
    }

    /** The window's mouseup/touchend listener: ends the drag and keeps the selection. */
    method PointerUp()
      requires Valid()
      modifies this
      ensures Valid()
      ensures !dragging && dragMode == None
      ensures selectMode == old(selectMode) && selected == old(selected)
    {
      if dragging {
        dragging := false;
        dragMode := None;
      }
    }
  }
}
