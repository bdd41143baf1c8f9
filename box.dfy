/**
 * `box`: a length and a height held in place, and a breadth held in an `int` of its own
 * on the heap, which copying duplicates rather than shares.
 */
module Basics {

  /** A heap `int`, as made by `new int`. */
  class IntCell {
    var value: int

    /** `new int`: a fresh cell whose value is indeterminate. */
    constructor ()
    {
    }
  }

  class Box {
    var length: int
    var breadth: IntCell
    var height: int

    /** `box()`: length and height 0, and a fresh breadth cell. */
    constructor ()
      ensures length == 0 && height == 0 && fresh(breadth)
    {
      length := 0;
      breadth := new IntCell();
      height := 0;
    }

    /**
     * The copy constructor: the same three dimensions, with the breadth in a fresh cell
     * rather than in the cell of `copy`.
     */
    constructor Copy(copy: Box)
      ensures length == copy.length && height == copy.height
      ensures fresh(breadth) && breadth.value == copy.breadth.value
    {
      length := copy.length;
      height := copy.height;
      var cell := new IntCell();
      cell.value := copy.breadth.value;
      breadth := cell;
    }

    /**
     * `operator=`: assigning a box to itself changes nothing. Otherwise the three
     * dimensions are copied, the breadth into a fresh cell, and the old cell is left as it
     * was (it is not released). Returns the box itself.
     */
    method Assign(copy: Box) returns (self: Box)
      modifies this
      ensures self == this
      ensures copy == this ==> length == old(length) && breadth == old(breadth) && height == old(height)
      ensures copy != this ==>
        length == old(copy.length) && height == old(copy.height) &&
        fresh(breadth) && breadth.value == old(copy.breadth.value)
      ensures old(breadth).value == old(breadth.value)
    {
      if copy != this {
        length := copy.length;
        height := copy.height;
        var cell := new IntCell();
        cell.value := copy.breadth.value;
        breadth := cell;
      }
      self := this;
    }

    /** `set_dimensions`: all three dimensions take the given values. */
    method SetDimensions(length1: int, breadth1: int, height1: int)
      modifies this, breadth
      ensures length == length1 && breadth == old(breadth) && breadth.value == breadth1 && height == height1
    {
      length := length1;
      breadth.value := breadth1;
      height := height1;
    }

    /** `setBreadth`: the breadth cell takes the new value; nothing else changes. */
    method SetBreadth(newBreadth: int)
      modifies breadth
      ensures breadth.value == newBreadth
    {
      breadth.value := newBreadth;
    }
  }

  /**
   * A box copied from another, by construction or by assignment, does not share its
   * breadth: setting the breadth of either afterwards leaves the other's as it was.
   */
  method CopiesAreIndependent() returns (original: int, viaConstructor: int, viaAssignment: int)
    ensures original == 7 && viaConstructor == 9 && viaAssignment == 2
  {
    var b1 := new Box();
    b1.SetDimensions(1, 2, 3);
    var b2 := new Box.Copy(b1);
    var b3 := new Box();
    var _ := b3.Assign(b1);
    b2.SetBreadth(9);
    b1.SetBreadth(7);
    original := b1.breadth.value;
    viaConstructor := b2.breadth.value;
    viaAssignment := b3.breadth.value;
  }

  /** Assigning a box to itself keeps its dimensions, breadth cell included. */
  method SelfAssignmentKeepsBox() returns (length: int, breadth: int, height: int)
    ensures length == 4 && breadth == 5 && height == 6
  {
    var b := new Box();
    b.SetDimensions(4, 5, 6);
    var _ := b.Assign(b);
    length, breadth, height := b.length, b.breadth.value, b.height;
  }
}
