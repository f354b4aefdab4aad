/**
 * The drawing surface: pen and colour settings kept within their bounds,
 * strokes grouped into elements, undo and clear, the listener
 * notifications, and the iterator over every drawn shape.
 */
module CanvasModel {
  import opened Java
  import opened Listeners
  import opened CanvasShape
  import opened CanvasElement

  const DEFAULT_MIN_PEN_SIZE: int32 := 1
  const DEFAULT_MAX_PEN_SIZE: int32 := 50

  /** The painting actions listeners are told about. */
  datatype Painting = Start | End | InProgress | Cleared | Reverted | Updated

  /** What a listener is told: a painting action, the pen, or the two colours. */
  datatype Notice =
    | Paint(action: Painting)
    | UpdatePen(penSize: int32, penShape: PenShape)
    | UpdateColor(foreground: int32, background: int32)

  /** One recorded listener call of a canvas. */
  type Event = Call<Notice>

  /** Every shape of `es`, element by element and in insertion order within each. */
  function Flatten(es: seq<CElement>): seq<CShape>
    reads es
  {
    if es == [] then [] else es[0].shapes + Flatten(es[1..])
  }

  /** Appending an element appends its shapes. */
  lemma {:induction false} FlattenAppend(es: seq<CElement>, e: CElement)
    ensures Flatten(es + [e]) == Flatten(es) + e.shapes
  {
    if es != [] {
      assert (es + [e])[1..] == es[1..] + [e];
      FlattenAppend(es[1..], e);
    }
  }

  /** Elements without shapes contribute nothing, so only non-empty elements are visited. */
  lemma {:induction false} FlattenSkipsEmpty(es: seq<CElement>)
    requires forall i :: 0 <= i < |es| ==> es[i].shapes == []
    ensures Flatten(es) == []
  {
    if es != [] {
      FlattenSkipsEmpty(es[1..]);
    }
  }

  /** No element appears twice. */
  predicate Distinct(es: seq<CElement>)
  {
    forall i, j :: 0 <= i < j < |es| ==> es[i] != es[j]
  }

  /** `e` is at most the last element of `es`. */
  predicate NotBeforeLast(es: seq<CElement>, e: CElement)
  {
    forall i :: 0 <= i < |es| - 1 ==> es[i] != e
  }

  /** A new element keeps the elements distinct, and it is the last of them. */
  lemma DistinctAppend(es: seq<CElement>, e: CElement)
    requires Distinct(es) && e !in es
    ensures Distinct(es + [e]) && NotBeforeLast(es + [e], e)
  {
  }

  /**
   * The checks of `Builder.build`, in order: a minimum below 1, a maximum
   * not above the minimum, and a pen size outside them throw
   * `IllegalArgumentException`; a null pen shape then throws
   * `NullPointerException`.
   */
  function BuildError(minPenSize: int32, maxPenSize: int32, penSize: int32, penShape: Option<PenShape>): (e: Option<Exception>)
    ensures e == None <==> 1 <= minPenSize < maxPenSize && minPenSize <= penSize <= maxPenSize && penShape != None
    ensures e == Some(NullPointer) <==> 1 <= minPenSize < maxPenSize && minPenSize <= penSize <= maxPenSize && penShape == None
    ensures e != None && e != Some(NullPointer) ==> e == Some(IllegalArgument)
  {
    if minPenSize < 1 then Some(IllegalArgument)
    else if maxPenSize <= minPenSize then Some(IllegalArgument)
    else if penSize < minPenSize || penSize > maxPenSize then Some(IllegalArgument)
    else if penShape == None then Some(NullPointer)
    else None
  }

  /** The listener calls a canvas has made so far. */
  class CanvasLog {
    var events: seq<Event>

    constructor()
      ensures events == []
    {
      events := [];
    }
  }

  /** `Canvas.Builder`: settings to be checked by `build`; pen sizes 1 to 50, pen size 1, round pen, colours 0. */
  class Builder {
    var minPenSize: int32
    var maxPenSize: int32
    var penSize: int32
    var backgroundColor: int32
    var foregroundColor: int32
    var penShape: Option<PenShape>

    constructor()
      ensures minPenSize == DEFAULT_MIN_PEN_SIZE && maxPenSize == DEFAULT_MAX_PEN_SIZE && penSize == DEFAULT_MIN_PEN_SIZE
      ensures backgroundColor == 0 && foregroundColor == 0 && penShape == Some(Round)
    {
      minPenSize := DEFAULT_MIN_PEN_SIZE;
      maxPenSize := DEFAULT_MAX_PEN_SIZE;
      penSize := DEFAULT_MIN_PEN_SIZE;
      backgroundColor := 0;
      foregroundColor := 0;
      penShape := Some(Round);
    }

    /** `foregroundColor(val)`. */
    method WithForegroundColor(val: int32) returns (b: Builder)
      modifies this
      ensures b == this && foregroundColor == val
      ensures minPenSize == old(minPenSize) && maxPenSize == old(maxPenSize) && penSize == old(penSize)
      ensures backgroundColor == old(backgroundColor) && penShape == old(penShape)
    {
      foregroundColor := val;
      return this;
    }

    /** `backgroundColor(val)`. */
    method WithBackgroundColor(val: int32) returns (b: Builder)
      modifies this
      ensures b == this && backgroundColor == val
      ensures minPenSize == old(minPenSize) && maxPenSize == old(maxPenSize) && penSize == old(penSize)
      ensures foregroundColor == old(foregroundColor) && penShape == old(penShape)
    {
      backgroundColor := val;
      return this;
    }

    /** `maxPenSize(val)`: not checked until `build`. */
    method WithMaxPenSize(val: int32) returns (b: Builder)
      modifies this
      ensures b == this && maxPenSize == val
      ensures minPenSize == old(minPenSize) && penSize == old(penSize) && backgroundColor == old(backgroundColor)
      ensures foregroundColor == old(foregroundColor) && penShape == old(penShape)
    {
      maxPenSize := val;
      return this;
    }

    /** `minPenSize(val)`: not checked until `build`. */
    method WithMinPenSize(val: int32) returns (b: Builder)
      modifies this
      ensures b == this && minPenSize == val
      ensures maxPenSize == old(maxPenSize) && penSize == old(penSize) && backgroundColor == old(backgroundColor)
      ensures foregroundColor == old(foregroundColor) && penShape == old(penShape)
    {
      minPenSize := val;
      return this;
    }

    /** `penSize(val)`: not checked until `build`. */
    method WithPenSize(val: int32) returns (b: Builder)
      modifies this
      ensures b == this && penSize == val
      ensures minPenSize == old(minPenSize) && maxPenSize == old(maxPenSize) && backgroundColor == old(backgroundColor)
      ensures foregroundColor == old(foregroundColor) && penShape == old(penShape)
    {
      penSize := val;
      return this;
    }

    /** `penShape(val)`: a null shape is kept and refused by `build`. */
    method WithPenShape(val: Option<PenShape>) returns (b: Builder)
      modifies this
      ensures b == this && penShape == val
      ensures minPenSize == old(minPenSize) && maxPenSize == old(maxPenSize) && penSize == old(penSize)
      ensures backgroundColor == old(backgroundColor) && foregroundColor == old(foregroundColor)
    {
      penShape := val;
      return this;
    }

    /** `build`: the first failing check throws; otherwise a new empty canvas with these settings. */
    method Build() returns (r: Result<Canvas>)
      ensures var e := BuildError(minPenSize, maxPenSize, penSize, penShape);
        && (e != None ==> r == Throws(e.value))
        && (e == None ==>
              && r.Ok? && fresh(r.value) && fresh(r.value.log) && r.value.Valid() && !r.value.Drawing()
              && r.value.elements == [] && r.value.listeners == [] && r.value.log.events == []
              && r.value.minPenSize == minPenSize && r.value.maxPenSize == maxPenSize && r.value.penSize == penSize
              && Some(r.value.penShape) == penShape
              && r.value.foregroundColor == foregroundColor && r.value.backgroundColor == backgroundColor)
    {
      var e := BuildError(minPenSize, maxPenSize, penSize, penShape);
      if e != None {
        return Throws(e.value);
      }
      var c := new Canvas(this);
      return Ok(c);
    }
  }

  class Canvas {
    var listeners: seq<nat>
    var elements: seq<CElement>
    var currentElement: CElement?
    var minPenSize: int32
    var maxPenSize: int32
    var penSize: int32
    var backgroundColor: int32
    var foregroundColor: int32
    var penShape: PenShape
    const log: CanvasLog

    /**
     * The pen size lies within bounds that start at 1; every element is a
     * distinct object; and an open stroke's element is the last element or
     * no longer in the list at all.
     */
    ghost predicate Valid()
      reads this
    {
      1 <= minPenSize < maxPenSize && minPenSize <= penSize <= maxPenSize
      && Distinct(elements)
      && (currentElement != null ==> NotBeforeLast(elements, currentElement))
    }

    /** A stroke is open: `beginDrawing` was called and `finishDrawing` not yet. */
    predicate Drawing()
      reads this
    {
      currentElement != null
    }

    /** Every shape drawn on the canvas, in drawing order. */
    function Shapes(): seq<CShape>
      reads this, elements
    {
      Flatten(elements)
    }

    /** The private constructor: the builder's settings, no elements, no open stroke. */
    constructor(b: Builder)
      requires BuildError(b.minPenSize, b.maxPenSize, b.penSize, b.penShape) == None
      ensures Valid() && !Drawing() && elements == [] && listeners == [] && fresh(log) && log.events == []
      ensures minPenSize == b.minPenSize && maxPenSize == b.maxPenSize && penSize == b.penSize
      ensures Some(penShape) == b.penShape
      ensures foregroundColor == b.foregroundColor && backgroundColor == b.backgroundColor
    {
      listeners := [];
      elements := [];
      currentElement := null;
      foregroundColor := b.foregroundColor;
      backgroundColor := b.backgroundColor;
      penSize := b.penSize;
      penShape := b.penShape.value;
      minPenSize := b.minPenSize;
      maxPenSize := b.maxPenSize;
      log := new CanvasLog();
    }

    /** The three notification loops: every listener, in order, is told `n`. */
    method Fire(n: Notice)
      modifies log
      ensures log.events == old(log.events) + Broadcast(listeners, n)
    {
      var i := 0;
      while i < |listeners|
        invariant 0 <= i <= |listeners|
        invariant log.events == old(log.events) + Broadcast(listeners[..i], n)
      {
        assert listeners[..i + 1][..i] == listeners[..i];
        log.events := log.events + [Call(listeners[i], n)];
        i := i + 1;
      }
      assert listeners[..i] == listeners;
    }

    /** `setBackgroundColor`: the colours are announced, then a repaint. */
    method SetBackgroundColor(color: int32)
      requires Valid()
      modifies this, log
      ensures Valid() && backgroundColor == color
      ensures foregroundColor == old(foregroundColor) && penSize == old(penSize) && penShape == old(penShape)
      ensures minPenSize == old(minPenSize) && maxPenSize == old(maxPenSize)
      ensures elements == old(elements) && currentElement == old(currentElement) && listeners == old(listeners)
      ensures log.events == old(log.events)
        + Broadcast(listeners, UpdateColor(foregroundColor, color)) + Broadcast(listeners, Paint(Updated))
    {
      backgroundColor := color;
      Fire(UpdateColor(foregroundColor, backgroundColor));
      Fire(Paint(Updated));
    }

    /** `setForegroundColor`: the colours are announced. */
    method SetForegroundColor(color: int32)
      requires Valid()
      modifies this, log
      ensures Valid() && foregroundColor == color
      ensures backgroundColor == old(backgroundColor) && penSize == old(penSize) && penShape == old(penShape)
      ensures minPenSize == old(minPenSize) && maxPenSize == old(maxPenSize)
      ensures elements == old(elements) && currentElement == old(currentElement) && listeners == old(listeners)
      ensures log.events == old(log.events) + Broadcast(listeners, UpdateColor(color, backgroundColor))
    {
      foregroundColor := color;
      Fire(UpdateColor(foregroundColor, backgroundColor));
    }

    /** `setPenSize`: a size outside the bounds throws and changes nothing; otherwise the pen is announced. */
    method SetPenSize(size: int32) returns (r: Result<()>)
      requires Valid()
      modifies this, log
      ensures Valid()
      ensures !(minPenSize <= size <= maxPenSize) ==>
        r == Throws(IllegalArgument) && penSize == old(penSize) && log.events == old(log.events)
      ensures minPenSize <= size <= maxPenSize ==>
        r == Ok(()) && penSize == size && log.events == old(log.events) + Broadcast(listeners, UpdatePen(size, penShape))
      ensures foregroundColor == old(foregroundColor) && backgroundColor == old(backgroundColor)
      ensures penShape == old(penShape) && minPenSize == old(minPenSize) && maxPenSize == old(maxPenSize)
      ensures elements == old(elements) && currentElement == old(currentElement) && listeners == old(listeners)
    {
      if size < minPenSize || size > maxPenSize {
        return Throws(IllegalArgument);
      }
      penSize := size;
      Fire(UpdatePen(penSize, penShape));
      return Ok(());
    }

    /** `setPenShape`: a null shape throws and changes nothing; otherwise the pen is announced. */
    method SetPenShape(shape: Option<PenShape>) returns (r: Result<()>)
      requires Valid()
      modifies this, log
      ensures Valid()
      ensures shape == None ==> r == Throws(NullPointer) && penShape == old(penShape) && log.events == old(log.events)
      ensures shape != None ==>
        r == Ok(()) && penShape == shape.value && log.events == old(log.events) + Broadcast(listeners, UpdatePen(penSize, shape.value))
      ensures foregroundColor == old(foregroundColor) && backgroundColor == old(backgroundColor)
      ensures penSize == old(penSize) && minPenSize == old(minPenSize) && maxPenSize == old(maxPenSize)
      ensures elements == old(elements) && currentElement == old(currentElement) && listeners == old(listeners)
    {
      if shape == None {
        return Throws(NullPointer);
      }
      penShape := shape.value;
      Fire(UpdatePen(penSize, penShape));
      return Ok(());
    }

    /** `getPenSize`: always within the pen-size bounds. */
    function GetPenSize(): (size: int32)
      reads this
      requires Valid()
      ensures GetMinPenSize() <= size <= GetMaxPenSize()
    {
      penSize
    }

    /** `getMinPenSize`: at least 1 and below the maximum. */
    function GetMinPenSize(): (size: int32)
      reads this
      requires Valid()
      ensures 1 <= size < GetMaxPenSize()
    {
      minPenSize
    }

    /** `getMaxPenSize`. */
    function GetMaxPenSize(): int32
      reads this
    {
      maxPenSize
    }

    /** `getPenShape`. */
    function GetPenShape(): PenShape
      reads this
    {
      penShape
    }

    /** `getForegroundColor`. */
    function GetForegroundColor(): int32
      reads this
    {
      foregroundColor
    }

    /** `getBackgroundColor`. */
    function GetBackgroundColor(): int32
      reads this
    {
      backgroundColor
    }

    /**
     * `draw`: outside a stroke, `IllegalStateException`. Inside one, a shape
     * with the current colour and pen is added to the stroke's element and a
     * progress event fired; the canvas shows it only while that element is
     * still in the list.
     */
    method Draw(x: int32, y: int32) returns (r: Result<()>)
      requires Valid()
      modifies currentElement, log
      ensures Valid()
      ensures !old(Drawing()) ==> r == Throws(IllegalState) && log.events == old(log.events)
      ensures old(Drawing()) ==>
        var s := CShape(x, y, foregroundColor, penSize, penShape);
        && r == Ok(())
        && currentElement.shapes == old(currentElement.shapes) + [s]
        && (currentElement in elements ==> Shapes() == old(Shapes()) + [s])
        && (currentElement !in elements ==> Shapes() == old(Shapes()))
        && log.events == old(log.events) + Broadcast(listeners, Paint(InProgress))
    {
      if currentElement == null {
        return Throws(IllegalState);
      }
      var shape := NewCShape(x, y, foregroundColor, penSize, Some(penShape));
      AddToStroke(shape.value);
      Fire(Paint(InProgress));
      return Ok(());
    }

    /** The stroke's element gains `s`; the canvas shows it when that element is still the last one. */
    method AddToStroke(s: CShape)
      requires Valid() && Drawing()
      modifies currentElement
      ensures Valid()
      ensures currentElement.shapes == old(currentElement.shapes) + [s]
      ensures currentElement in elements ==> Shapes() == old(Shapes()) + [s]
      ensures currentElement !in elements ==> Shapes() == old(Shapes())
    {
      var e := currentElement;
      if e in elements {
        var n := |elements| - 1;
        assert elements == elements[..n] + [elements[n]];
        assert elements[n] == e;
        ghost var front := Flatten(elements[..n]);
        FlattenAppend(elements[..n], e);
        var _ := e.AddShape(Some(s));
        assert Flatten(elements[..n]) == front;
        FlattenAppend(elements[..n], e);
      } else {
        var _ := e.AddShape(Some(s));
      }
    }

    /** `beginDrawing`: inside a stroke, `IllegalStateException`; otherwise a new empty element opens the stroke. */
    method BeginDrawing() returns (r: Result<bool>)
      requires Valid()
      modifies this, log
      ensures Valid()
      ensures old(Drawing()) ==>
        r == Throws(IllegalState) && elements == old(elements)
        && currentElement == old(currentElement) && log.events == old(log.events)
      ensures !old(Drawing()) ==>
        && r == Ok(true) && Drawing() && fresh(currentElement) && currentElement.shapes == []
        && elements == old(elements) + [currentElement] && Shapes() == old(Shapes())
        && log.events == old(log.events) + Broadcast(listeners, Paint(Start))
      ensures listeners == old(listeners) && penSize == old(penSize) && penShape == old(penShape)
      ensures minPenSize == old(minPenSize) && maxPenSize == old(maxPenSize)
      ensures foregroundColor == old(foregroundColor) && backgroundColor == old(backgroundColor)
    {
      if currentElement != null {
        return Throws(IllegalState);
      }
      OpenStroke();
      Fire(Paint(Start));
      return Ok(true);
    }

    /** A new empty element becomes the stroke's element and the last element. */
    method OpenStroke()
      requires Valid() && !Drawing()
      modifies this
      ensures Valid() && Drawing() && fresh(currentElement) && currentElement.shapes == []
      ensures elements == old(elements) + [currentElement] && Shapes() == old(Shapes())
      ensures listeners == old(listeners) && penSize == old(penSize) && penShape == old(penShape)
      ensures minPenSize == old(minPenSize) && maxPenSize == old(maxPenSize)
      ensures foregroundColor == old(foregroundColor) && backgroundColor == old(backgroundColor)
    {
      var e := new CElement();
      FlattenAppend(elements, e);
      DistinctAppend(elements, e);
      currentElement := e;
      elements := elements + [e];
    }

    /** `finishDrawing`: outside a stroke, `IllegalStateException`; otherwise the stroke is closed. */
    method FinishDrawing() returns (r: Result<bool>)
      requires Valid()
      modifies this, log
      ensures Valid() && !Drawing() && elements == old(elements)
      ensures !old(Drawing()) ==> r == Throws(IllegalState) && log.events == old(log.events)
      ensures old(Drawing()) ==> r == Ok(true) && log.events == old(log.events) + Broadcast(listeners, Paint(End))
      ensures listeners == old(listeners) && penSize == old(penSize) && penShape == old(penShape)
      ensures minPenSize == old(minPenSize) && maxPenSize == old(maxPenSize)
      ensures foregroundColor == old(foregroundColor) && backgroundColor == old(backgroundColor)
    {
      if currentElement == null {
        return Throws(IllegalState);
      }
      currentElement := null;
      Fire(Paint(End));
      return Ok(true);
    }

    /**
     * `undo`: the last element and its shapes go and `true` is reported;
     * with no elements, `false` and no event. An open stroke stays open.
     */
    method Undo() returns (b: bool)
      requires Valid()
      modifies this, log
      ensures Valid() && currentElement == old(currentElement)
      ensures old(elements) == [] ==> !b && elements == [] && log.events == old(log.events)
      ensures old(elements) != [] ==>
        && b && elements == old(elements)[..|old(elements)| - 1]
        && old(Shapes()) == Shapes() + old(elements[|elements| - 1].shapes)
        && log.events == old(log.events) + Broadcast(listeners, Paint(Reverted))
      ensures listeners == old(listeners) && penSize == old(penSize) && penShape == old(penShape)
      ensures minPenSize == old(minPenSize) && maxPenSize == old(maxPenSize)
      ensures foregroundColor == old(foregroundColor) && backgroundColor == old(backgroundColor)
    {
      if |elements| > 0 {
        var n := |elements| - 1;
        assert elements == elements[..n] + [elements[n]];
        FlattenAppend(elements[..n], elements[n]);
        elements := elements[..n];
        Fire(Paint(Reverted));
        return true;
      }
      return false;
    }

    /** `clearAll`: a non-empty canvas is emptied and `true` reported; an empty one reports `false` with no event. */
    method ClearAll() returns (b: bool)
      requires Valid()
      modifies this, log
      ensures Valid() && elements == [] && Shapes() == [] && currentElement == old(currentElement)
      ensures b <==> old(elements) != []
      ensures b ==> log.events == old(log.events) + Broadcast(listeners, Paint(Cleared))
      ensures !b ==> log.events == old(log.events)
      ensures listeners == old(listeners) && penSize == old(penSize) && penShape == old(penShape)
      ensures minPenSize == old(minPenSize) && maxPenSize == old(maxPenSize)
      ensures foregroundColor == old(foregroundColor) && backgroundColor == old(backgroundColor)
    {
      if |elements| > 0 {
        elements := [];
        Fire(Paint(Cleared));
        return true;
      }
      return false;
    }

    /** `addListener`: a null listener throws; otherwise it is appended and the call reports `true`. */
    method AddListener(listener: Option<nat>) returns (r: Result<bool>)
      requires Valid()
      modifies this
      ensures Valid()
      ensures listener == None ==> r == Throws(NullPointer) && listeners == old(listeners)
      ensures listener != None ==> r == Ok(true) && listeners == old(listeners) + [listener.value]
      ensures elements == old(elements) && currentElement == old(currentElement)
      ensures penSize == old(penSize) && penShape == old(penShape)
      ensures minPenSize == old(minPenSize) && maxPenSize == old(maxPenSize)
      ensures foregroundColor == old(foregroundColor) && backgroundColor == old(backgroundColor)
    {
      if listener == None {
        return Throws(NullPointer);
      }
      listeners := listeners + [listener.value];
      return Ok(true);
    }

    /** `removeListener`: a null listener throws; otherwise its first registration is dropped, reporting whether there was one. */
    method RemoveListener(listener: Option<nat>) returns (r: Result<bool>)
      requires Valid()
      modifies this
      ensures Valid()
      ensures listener == None ==> r == Throws(NullPointer) && listeners == old(listeners)
      ensures listener != None ==>
        r == Ok(listener.value in old(listeners)) && listeners == RemoveFirst(old(listeners), listener.value)
      ensures elements == old(elements) && currentElement == old(currentElement)
      ensures penSize == old(penSize) && penShape == old(penShape)
      ensures minPenSize == old(minPenSize) && maxPenSize == old(maxPenSize)
      ensures foregroundColor == old(foregroundColor) && backgroundColor == old(backgroundColor)
    {
      if listener == None {
        return Throws(NullPointer);
      }
      r := Ok(listener.value in listeners);
      listeners := RemoveFirst(listeners, listener.value);
    }

    /**
     * `newInstance`, as written: a builder with the default pen-size bounds
     * and this canvas's colours, pen size and pen shape, so a pen size above
     * the default maximum makes `build` throw.
     */
    method NewInstance() returns (r: Result<Canvas>)
      requires Valid()
      ensures penSize <= DEFAULT_MAX_PEN_SIZE ==>
        && r.Ok? && fresh(r.value) && r.value.Valid() && r.value.elements == [] && r.value.listeners == []
        && r.value.minPenSize == DEFAULT_MIN_PEN_SIZE && r.value.maxPenSize == DEFAULT_MAX_PEN_SIZE
        && r.value.penSize == penSize && r.value.penShape == penShape
        && r.value.foregroundColor == foregroundColor && r.value.backgroundColor == backgroundColor
      ensures penSize > DEFAULT_MAX_PEN_SIZE ==> r == Throws(IllegalArgument)
    {
      var b := new Builder();
      b := b.WithBackgroundColor(backgroundColor);
      b := b.WithForegroundColor(foregroundColor);
      b := b.WithPenSize(penSize);
      b := b.WithPenShape(Some(penShape));
      r := b.Build();
    }

    /**
     * `newInstance` as its documentation promises it, a new canvas in every
     * case: the builder is also given this canvas's pen-size bounds.
     */
    method NewInstanceKeepingBounds() returns (r: Result<Canvas>)
      requires Valid()
      ensures r.Ok? && fresh(r.value) && r.value.Valid() && r.value.elements == [] && r.value.listeners == []
      ensures r.value.minPenSize == minPenSize && r.value.maxPenSize == maxPenSize
      ensures r.value.penSize == penSize && r.value.penShape == penShape
      ensures r.value.foregroundColor == foregroundColor && r.value.backgroundColor == backgroundColor
    {
      var b := new Builder();
      b := b.WithBackgroundColor(backgroundColor);
      b := b.WithForegroundColor(foregroundColor);
      b := b.WithMinPenSize(minPenSize);
      b := b.WithMaxPenSize(maxPenSize);
      b := b.WithPenSize(penSize);
      b := b.WithPenShape(Some(penShape));
      r := b.Build();
    }

    /** `iterator`: an iterator over every shape on the canvas, in drawing order. */
    method Iterator() returns (it: CanvasIterator)
      ensures fresh(it) && it.Valid() && it.Remaining() == Shapes()
    {
      it := new CanvasIterator(elements);
    }
  }

  /**
   * A canvas whose pen is wider than the default maximum cannot be copied
   * by `newInstance` as written, although the copy with its own bounds is
   * always built.
   */
  method WidePenDefeatsNewInstance() returns (asWritten: Result<Canvas>, keepingBounds: Result<Canvas>)
    ensures asWritten == Throws(IllegalArgument)
    ensures keepingBounds.Ok? && keepingBounds.value.penSize == 60 && keepingBounds.value.maxPenSize == 100
  {
    var b := new Builder();
    b := b.WithMaxPenSize(100);
    b := b.WithPenSize(60);
    var built := b.Build();
    var canvas := built.value;
    asWritten := canvas.NewInstance();
    keepingBounds := canvas.NewInstanceKeepingBounds();
  }

  /**
   * `CanvasIterator`: walks the elements with one iterator and the current
   * element's shapes with another, passing over elements that hold no
   * shapes.
   */
  class CanvasIterator {
    const elements: seq<CElement>
    var nextElement: nat
    var current: CElement?
    var shapeIndex: nat

    /** The element iterator is within the list, and the shape iterator within its element. */
    ghost predicate Valid()
      reads this, current
    {
      nextElement <= |elements| && (current != null ==> shapeIndex <= |current.shapes|)
    }

    /** The shapes still to be returned: the rest of the current element, then every later element. */
    function Remaining(): seq<CShape>
      reads this, current, elements
      requires Valid()
    {
      (if current != null then current.shapes[shapeIndex..] else []) + Flatten(elements[nextElement..])
    }

    /** The constructor takes the first element's shape iterator when there is a first element. */
    constructor(elements: seq<CElement>)
      ensures this.elements == elements && Valid() && Remaining() == Flatten(elements)
    {
      this.elements := elements;
      shapeIndex := 0;
      if |elements| > 0 {
        var first := elements[0];
        assert first.shapes[0..] == first.shapes;
        current := first;
        nextElement := 1;
      } else {
        current := null;
        nextElement := 0;
      }
    }

    /** Moves past exhausted elements until a shape is at hand or the elements run out; what remains is unchanged. */
    method Advance()
      requires Valid()
      modifies this
      ensures Valid() && Remaining() == old(Remaining())
      ensures Remaining() != [] <==> current != null && shapeIndex < |current.shapes|
    {
      if current != null && shapeIndex < |current.shapes| {
        return;
      }
      while nextElement < |elements|
        invariant Valid() && Remaining() == old(Remaining())
        invariant current == null || shapeIndex == |current.shapes|
        decreases |elements| - nextElement
      {
        var e := elements[nextElement];
        assert Remaining() == Flatten(elements[nextElement..]) by {
          if current != null {
            assert current.shapes[shapeIndex..] == [];
          }
        }
        assert Flatten(elements[nextElement..]) == e.shapes + Flatten(elements[nextElement + 1..]) by {
          assert elements[nextElement..][0] == e;
          assert elements[nextElement..][1..] == elements[nextElement + 1..];
        }
        current := e;
        shapeIndex := 0;
        nextElement := nextElement + 1;
        assert current.shapes[0..] == current.shapes;
        if shapeIndex < |current.shapes| {
          return;
        }
      }
    }

    /** `hasNext`: some shape is left; passing over empty elements does not change what is left. */
    method HasNext() returns (b: bool)
      requires Valid()
      modifies this
      ensures Valid() && Remaining() == old(Remaining())
      ensures b <==> Remaining() != []
    {
      Advance();
      b := current != null && shapeIndex < |current.shapes|;
    }

    /** `next`: the next shape in drawing order; with none left, `NoSuchElementException`. */
    method Next() returns (r: Result<CShape>)
      requires Valid()
      modifies this
      ensures Valid()
      ensures old(Remaining()) == [] ==> r == Throws(NoSuchElement) && Remaining() == []
      ensures old(Remaining()) != [] ==> r == Ok(old(Remaining())[0]) && Remaining() == old(Remaining())[1..]
    {
      Advance();
      if current == null || shapeIndex >= |current.shapes| {
        return Throws(NoSuchElement);
      }
      r := Ok(current.shapes[shapeIndex]);
      shapeIndex := shapeIndex + 1;
    }

    /** `remove`: always `UnsupportedOperationException`. */
    method Remove() returns (r: Result<()>)
      ensures r == Throws(UnsupportedOperation)
    {
      return Throws(UnsupportedOperation);
    }
  }
}
