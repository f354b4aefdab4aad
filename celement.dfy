/** A group of shapes drawn in one stroke, and its read-only iterator. */
module CanvasElement {
  import opened Java
  import opened CanvasShape

  class CElement {
    var shapes: seq<CShape>

    /** A new element holds no shapes. */
    constructor()
      ensures shapes == []
    {
      shapes := [];
    }

    /** `addShape`: a null shape throws and changes nothing; otherwise it is appended and the call reports `true`. */
    method AddShape(shape: Option<CShape>) returns (r: Result<bool>)
      modifies this
      ensures shape == None ==> r == Throws(NullPointer) && shapes == old(shapes)
      ensures shape != None ==> r == Ok(true) && shapes == old(shapes) + [shape.value]
    {
      if shape == None {
        return Throws(NullPointer);
      }
      shapes := shapes + [shape.value];
      return Ok(true);
    }

    /** `iterator`: an iterator positioned before the first shape. */
    method Iterator() returns (it: ElementIterator)
      ensures fresh(it) && it.element == this && it.index == 0 && it.Remaining() == shapes
    {
      it := new ElementIterator(this);
    }
  }

  /** `ElementIterator`: the shapes of one element in insertion order; removal is not supported. */
  class ElementIterator {
    const element: CElement
    var index: nat

    constructor(element: CElement)
      ensures this.element == element && index == 0
    {
      this.element := element;
      index := 0;
    }

    /** The shapes this iterator has still to return. */
    function Remaining(): seq<CShape>
      reads this, element
    {
      if index <= |element.shapes| then element.shapes[index..] else []
    }

    /** `hasNext`: some shape is left. */
    function HasNext(): (b: bool)
      reads this, element
      ensures b <==> Remaining() != []
    {
      index < |element.shapes|
    }

    /** `next`: the next shape in insertion order; with none left, `NoSuchElementException`. */
    method Next() returns (r: Result<CShape>)
      modifies this
      ensures old(Remaining()) == [] ==> r == Throws(NoSuchElement) && index == old(index)
      ensures old(Remaining()) != [] ==> r == Ok(old(Remaining())[0]) && Remaining() == old(Remaining())[1..]
      ensures old(index) < |old(element.shapes)| ==> index == old(index) + 1
    {
      if index >= |element.shapes| {
        return Throws(NoSuchElement);
      }
      r := Ok(element.shapes[index]);
      index := index + 1;
    }

    /** `remove`: always `UnsupportedOperationException`. */
    method Remove() returns (r: Result<()>)
      ensures r == Throws(UnsupportedOperation)
    {
      return Throws(UnsupportedOperation);
    }
  }

  /** An empty element has nothing to iterate: `hasNext` is false and `next` throws. */
  method EmptyElementIterates() returns (more: bool, r: Result<CShape>)
    ensures !more && r == Throws(NoSuchElement)
  {
    var e := new CElement();
    var it := e.Iterator();
    more := it.HasNext();
    r := it.Next();
  }

  /** The iterator returns the shapes in the order they were added. */
  method IteratesInInsertionOrder(a: CShape, b: CShape) returns (first: Result<CShape>, second: Result<CShape>, third: Result<CShape>)
    ensures first == Ok(a) && second == Ok(b) && third == Throws(NoSuchElement)
  {
    var e := new CElement();
    var _ := e.AddShape(Some(a));
    var _ := e.AddShape(Some(b));
    var it := e.Iterator();
    first := it.Next();
    second := it.Next();
    third := it.Next();
  }
}
