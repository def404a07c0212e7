/**
 * The map store: the viewport, the marks shown on the map, the selected mark,
 * and the two fields of the "adding a mark" interaction: `isAddingMark` and
 * the clicked position `newMarkPosition`, which is set exactly while a mark
 * is being added.
 */
module MapView {
  import opened Types
  import opened Seqs

  /** Novosibirsk, where the map opens. */
  const InitialCenter: Point := Point(82.9204, 55.0084)
  const InitialZoom: real := 13.0

  class MapStore {
    var center: Point
    var zoom: real
    var selectedMark: Option<Mark>
    var marks: seq<Mark>
    var isAddingMark: bool
    var newMarkPosition: Option<Point>

    /** A position is pending exactly while a mark is being added. */
    predicate Valid()
      reads this
    {
      isAddingMark <==> newMarkPosition.Some?
    }

    constructor ()
      ensures Valid()
      ensures center == InitialCenter && zoom == InitialZoom && selectedMark == None && marks == []
      ensures !isAddingMark && newMarkPosition == None
    {
      center := InitialCenter;
      zoom := InitialZoom;
      selectedMark := None;
      marks := [];
      isAddingMark := false;
      newMarkPosition := None;
    }

    method SetCenter(c: Point)
      modifies this
      ensures center == c
      ensures zoom == old(zoom) && selectedMark == old(selectedMark) && marks == old(marks)
      ensures isAddingMark == old(isAddingMark) && newMarkPosition == old(newMarkPosition)
      ensures old(Valid()) ==> Valid()
    {
      center := c;
    }

    method SetZoom(z: real)
      modifies this
      ensures zoom == z
      ensures center == old(center) && selectedMark == old(selectedMark) && marks == old(marks)
      ensures isAddingMark == old(isAddingMark) && newMarkPosition == old(newMarkPosition)
      ensures old(Valid()) ==> Valid()
    {
      zoom := z;
    }

    method SetSelectedMark(mark: Option<Mark>)
      modifies this
      ensures selectedMark == mark
      ensures center == old(center) && zoom == old(zoom) && marks == old(marks)
      ensures isAddingMark == old(isAddingMark) && newMarkPosition == old(newMarkPosition)
      ensures old(Valid()) ==> Valid()
    {
      selectedMark := mark;
    }

    method SetMarks(ms: seq<Mark>)
      modifies this
      ensures marks == ms
      ensures center == old(center) && zoom == old(zoom) && selectedMark == old(selectedMark)
      ensures isAddingMark == old(isAddingMark) && newMarkPosition == old(newMarkPosition)
      ensures old(Valid()) ==> Valid()
    {
      marks := ms;
    }

    /** `addMark(mark)`: appends to the mark list. */
    method AddMark(mark: Mark)
      modifies this
      ensures marks == old(marks) + [mark]
      ensures center == old(center) && zoom == old(zoom) && selectedMark == old(selectedMark)
      ensures isAddingMark == old(isAddingMark) && newMarkPosition == old(newMarkPosition)
      ensures old(Valid()) ==> Valid()
    {
      marks := marks + [mark];
    }

    /**
     * `updateMark(u)`: every mark with `u`'s id becomes `u`, in place; the
     * others stay. The selected mark is a separate copy and is not updated.
     */
    method UpdateMark(u: Mark)
      modifies this
      ensures |marks| == |old(marks)|
      ensures forall i :: 0 <= i < |marks| ==> marks[i] == if old(marks)[i].id == u.id then u else old(marks)[i]
      ensures center == old(center) && zoom == old(zoom) && selectedMark == old(selectedMark)
      ensures isAddingMark == old(isAddingMark) && newMarkPosition == old(newMarkPosition)
      ensures old(Valid()) ==> Valid()
    {
      marks := ReplaceWhere(marks, (m: Mark) => m.id == u.id, u);
    }

    /**
     * `removeMark(id)`: the marks without those with this id, in order. The
     * selected mark is not cleared even when it has this id.
     */
    method RemoveMark(id: string)
      modifies this
      ensures forall m :: m in marks <==> m in old(marks) && m.id != id
      ensures IsSubsequence(marks, old(marks))
      ensures forall m :: multiset(marks)[m] == if m.id != id then multiset(old(marks))[m] else 0
      ensures center == old(center) && zoom == old(zoom) && selectedMark == old(selectedMark)
      ensures isAddingMark == old(isAddingMark) && newMarkPosition == old(newMarkPosition)
      ensures old(Valid()) ==> Valid()
    {
      var keep := (m: Mark) => m.id != id;
      FilterExact(marks, keep);
      marks := Filter(marks, keep);
    }

    /** `startAddingMark(p)`: the user clicked `p`; a mark is being added there. */
    method StartAddingMark(p: Point)
      modifies this
      ensures isAddingMark && newMarkPosition == Some(p)
      ensures center == old(center) && zoom == old(zoom) && selectedMark == old(selectedMark) && marks == old(marks)
      ensures Valid()
    {
      isAddingMark := true;
      newMarkPosition := Some(p);
    }

    /** `cancelAddingMark()`: back to browsing; the marks are untouched. */
    method CancelAddingMark()
      modifies this
      ensures !isAddingMark && newMarkPosition == None
      ensures center == old(center) && zoom == old(zoom) && selectedMark == old(selectedMark) && marks == old(marks)
      ensures Valid()
    {
      isAddingMark := false;
      newMarkPosition := None;
    }

    /**
     * `finishAddingMark(mark)`: the created mark is appended and the
     * interaction ends. It is accepted whether or not a mark was being added.
     */
    method FinishAddingMark(mark: Mark)
      modifies this
      ensures marks == old(marks) + [mark]
      ensures !isAddingMark && newMarkPosition == None
      ensures center == old(center) && zoom == old(zoom) && selectedMark == old(selectedMark)
      ensures Valid()
    {
      marks := marks + [mark];
      isAddingMark := false;
      newMarkPosition := None;
    }
  }
}
