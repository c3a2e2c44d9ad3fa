/**
 * The text-selection registry of packages/lector/src/hooks/layers/useTextLayer.tsx
 * (lines 79-218). Module-level state maps each bound text-layer div to its
 * end-of-content div and holds the one `AbortController` whose signal the
 * document-wide listeners are registered with. The DOM is abstract: divs and
 * selection ranges are identities, `range.intersectsNode` is an input
 * relation, and of the DOM state only what the handlers change is kept.
 */
module TextLayer {
  import opened Wrappers

  /** A text-layer `div`. */
  datatype Layer = Layer(id: nat)
  /** The `endOfContent` div appended to a text layer. */
  datatype EndDiv = EndDiv(id: nat)
  /** One range of the document selection. */
  datatype Range = Range(id: nat)

  class AbortController {
    var aborted: bool

    constructor()
      ensures !aborted
    {
      aborted := false;
    }

    method Abort()
      modifies this
      ensures aborted
    {
      aborted := true;
    }
  }

  /** The layers some range of the selection intersects (lines 160-168). */
  function Active(layers: set<Layer>, ranges: seq<Range>, intersects: (Range, Layer) -> bool): (r: set<Layer>)
    ensures r <= layers
    ensures forall l :: l in r <==> l in layers && exists i :: 0 <= i < |ranges| && intersects(ranges[i], l)
  {
    if ranges == [] then {}
    else
      var n := |ranges| - 1;
      var earlier := Active(layers, ranges[..n], intersects);
      assert forall i :: 0 <= i < n ==> ranges[..n][i] == ranges[i];
      earlier + (set l | l in layers && intersects(ranges[n], l))
  }

  /** The end divs of the given registered layers. */
  function EndDivsOf(textLayers: map<Layer, EndDiv>, layers: set<Layer>): (r: set<EndDiv>)
    ensures forall e :: e in r <==> exists l :: l in layers && l in textLayers && textLayers[l] == e
  {
    set l | l in layers && l in textLayers :: textLayers[l]
  }

  lemma EndDivsOfAdd(textLayers: map<Layer, EndDiv>, layers: set<Layer>, l: Layer)
    requires l in textLayers
    ensures EndDivsOf(textLayers, layers + {l}) == EndDivsOf(textLayers, layers) + {textLayers[l]}
  {
  }

  /** The state the module-level variables and the handlers' DOM effects make up. */
  class Registry {
    /** `textLayers`: each bound text layer and its end-of-content div. */
    var textLayers: map<Layer, EndDiv>
    /** `selectionChangeAbortController`. */
    var controller: AbortController?
    var isPointerDown: bool
    /** The divs whose `_textSelectionBound` flag is set. */
    var bound: set<Layer>
    /** The divs that carry a `_cleanupTextSelection` closure. */
    var hasCleanup: set<Layer>
    /** The divs with a `mousedown` listener. */
    var listening: set<Layer>
    /** The layers whose class list holds `selecting`. */
    var selecting: set<Layer>
    /** End divs that are not children of their own text layer. */
    var detached: set<EndDiv>
    /** End divs with an inline width or height. */
    var sized: set<EndDiv>

    /**
     * A controller exists, not aborted, exactly while some layer is
     * registered; the registered layers are exactly the bound ones, each
     * with its listener and its cleanup closure.
     */
    ghost predicate Valid()
      reads this, controller
    {
      && (controller != null <==> textLayers != map[])
      && (controller != null ==> !controller.aborted)
      && bound == textLayers.Keys && hasCleanup == bound && listening == bound
    }

    /** The module's state when it is first loaded, over the given DOM. */
    constructor(selecting: set<Layer>, detached: set<EndDiv>, sized: set<EndDiv>)
      ensures Valid()
      ensures textLayers == map[] && controller == null && !isPointerDown
      ensures this.selecting == selecting && this.detached == detached && this.sized == sized
    {
      textLayers := map[];
      controller := null;
      isPointerDown := false;
      bound, hasCleanup, listening := {}, {}, {};
      this.selecting, this.detached, this.sized := selecting, detached, sized;
    }

    /** `enableGlobalSelectionListener`: creates a controller only when there is none. */
    method EnableGlobalSelectionListener()
      requires controller != null ==> !controller.aborted
      modifies this`controller
      ensures controller != null && !controller.aborted
      ensures old(controller) != null ==> controller == old(controller)
      ensures old(controller) == null ==> fresh(controller)
    {
      if controller != null {
        return;
      }
      controller := new AbortController();
    }

    /**
     * `bindMouseEvents`: a bound div is left alone; otherwise the div is
     * registered with its end div, the shared controller exists, and the
     * div gets its listener and cleanup closure.
     */
    method BindMouseEvents(layer: Layer, endOfContent: EndDiv)
      requires Valid()
      modifies this`bound, this`textLayers, this`controller, this`listening, this`hasCleanup
      ensures Valid()
      ensures layer in old(bound) ==>
        textLayers == old(textLayers) && controller == old(controller) && bound == old(bound)
      ensures layer !in old(bound) ==>
        && textLayers == old(textLayers)[layer := endOfContent]
        && bound == old(bound) + {layer}
        && (old(controller) != null ==> controller == old(controller))
      ensures controller != null || layer in old(bound)
    {
      if layer in bound {
        return;
      }
      bound := bound + {layer};
      textLayers := textLayers[layer := endOfContent];
      EnableGlobalSelectionListener();
      listening := listening + {layer};
      hasCleanup := hasCleanup + {layer};
    }

    /** `removeGlobalSelectionListener`: once no layer is left, the controller is aborted and dropped. */
    method RemoveGlobalSelectionListener(layer: Layer)
      requires controller != null ==> !controller.aborted
      requires controller != null <==> textLayers != map[]
      modifies this`textLayers, this`controller, controller
      ensures textLayers == old(textLayers) - {layer}
      ensures textLayers == map[] ==> controller == null && (old(controller) != null ==> old(controller).aborted)
      ensures textLayers != map[] ==> controller == old(controller) && !controller.aborted
    {
      textLayers := textLayers - {layer};
      if |textLayers| == 0 {
        if controller != null {
          controller.Abort();
        }
        controller := null;
      }
    }

    /**
     * The effect's cleanup (lines 66-69) running the div's
     * `_cleanupTextSelection` closure (lines 100-104) when it has one: the
     * div is unregistered and unbound, so a later bind registers it again.
     */
    method Cleanup(layer: Layer)
      requires Valid()
      modifies this`textLayers, this`controller, controller, this`bound, this`hasCleanup, this`listening
      ensures Valid()
      ensures textLayers == old(textLayers) - {layer} && bound == old(bound) - {layer}
      ensures textLayers == map[] ==> controller == null && (old(controller) != null ==> old(controller).aborted)
      ensures textLayers != map[] ==> controller == old(controller)
    {
      if layer !in hasCleanup {
        return;
      }
      listening := listening - {layer};
      RemoveGlobalSelectionListener(layer);
      bound := bound - {layer};
      hasCleanup := hasCleanup - {layer};
    }

    /** `reset`: the end div goes back under its layer with no inline size, and the layer stops selecting. */
    method Reset(endDiv: EndDiv, layer: Layer)
      modifies this`detached, this`sized, this`selecting
      ensures detached == old(detached) - {endDiv}
      ensures sized == old(sized) - {endDiv}
      ensures selecting == old(selecting) - {layer}
    {
      if endDiv in detached {
        detached := detached - {endDiv};
      }
      sized := sized - {endDiv};
      selecting := selecting - {layer};
    }

    /** `textLayers.forEach(reset)`. */
    method ResetAll()
      modifies this`detached, this`sized, this`selecting
      ensures detached == old(detached) - textLayers.Values
      ensures sized == old(sized) - textLayers.Values
      ensures selecting == old(selecting) - textLayers.Keys
    {
      var todo := textLayers.Keys;
      ghost var done: set<Layer> := {};
      while todo != {}
        invariant todo + done == textLayers.Keys && todo !! done
        invariant detached == old(detached) - EndDivsOf(textLayers, done)
        invariant sized == old(sized) - EndDivsOf(textLayers, done)
        invariant selecting == old(selecting) - done
        decreases todo
      {
        var layer :| layer in todo;
        Reset(textLayers[layer], layer);
        todo := todo - {layer};
        done := done + {layer};
      }
      assert EndDivsOf(textLayers, done) == textLayers.Values;
    }

    /** The `mousedown` listener of a bound div. */
    method OnMouseDown(layer: Layer)
      modifies this`selecting
      ensures layer in listening ==> selecting == old(selecting) + {layer}
      ensures layer !in listening ==> selecting == old(selecting)
    {
      if layer in listening {
        selecting := selecting + {layer};
      }
    }

    /** The document `pointerdown` listener, live only while the controller is. */
    method OnPointerDown()
      modifies this`isPointerDown
      ensures isPointerDown == (controller != null || old(isPointerDown))
    {
      if controller == null {
        return;
      }
      isPointerDown := true;
    }

    /** The document `pointerup` listener: the pointer is up and every layer is reset. */
    method OnPointerUp()
      modifies this`isPointerDown, this`detached, this`sized, this`selecting
      ensures controller == null ==> unchanged(this)
      ensures controller != null ==> !isPointerDown && selecting == old(selecting) - textLayers.Keys
      ensures controller != null ==> detached == old(detached) - textLayers.Values && sized == old(sized) - textLayers.Values
    {
      if controller == null {
        return;
      }
      isPointerDown := false;
      ResetAll();
    }

    /** The window `blur` listener, which does what `pointerup` does. */
    method OnBlur()
      modifies this`isPointerDown, this`detached, this`sized, this`selecting
      ensures controller == null ==> unchanged(this)
      ensures controller != null ==> !isPointerDown && selecting == old(selecting) - textLayers.Keys
      ensures controller != null ==> detached == old(detached) - textLayers.Values && sized == old(sized) - textLayers.Values
    {
      if controller == null {
        return;
      }
      isPointerDown := false;
      ResetAll();
    }

    /** The document `keyup` listener: resets every layer unless the pointer is down. */
    method OnKeyUp()
      modifies this`detached, this`sized, this`selecting
      ensures controller == null || isPointerDown ==> unchanged(this)
      ensures controller != null && !isPointerDown ==>
        selecting == old(selecting) - textLayers.Keys
        && detached == old(detached) - textLayers.Values && sized == old(sized) - textLayers.Values
    {
      if controller == null {
        return;
      }
      if !isPointerDown {
        ResetAll();
      }
    }

    /** The layers a selection makes active, computed as lines 160-168 do. */
    method ActiveTextLayers(ranges: seq<Range>, intersects: (Range, Layer) -> bool) returns (active: set<Layer>)
      ensures active == Active(textLayers.Keys, ranges, intersects)
    {
      active := {};
      var i := 0;
      while i < |ranges|
        invariant 0 <= i <= |ranges|
        invariant active == Active(textLayers.Keys, ranges[..i], intersects)
      {
        var range := ranges[i];
        var todo := textLayers.Keys;
        ghost var done: set<Layer> := {};
        while todo != {}
          invariant todo + done == textLayers.Keys && todo !! done
          invariant active == Active(textLayers.Keys, ranges[..i], intersects) + set l | l in done && intersects(range, l)
          decreases todo
        {
          var layer :| layer in todo;
          if layer !in active && intersects(range, layer) {
            active := active + {layer};
          }
          todo := todo - {layer};
          done := done + {layer};
        }
        assert ranges[..i + 1][..i] == ranges[..i];
        i := i + 1;
      }
      assert ranges[..i] == ranges;
    }

    /**
     * The document `selectionchange` listener up to the Firefox check: with
     * no selection every layer is reset; otherwise a registered layer is
     * marked selecting exactly when some range intersects it, and every other
     * registered layer is reset.
     */
    method OnSelectionChange(selection: Option<seq<Range>>, intersects: (Range, Layer) -> bool)
      modifies this`detached, this`sized, this`selecting
      ensures controller == null ==> unchanged(this)
      ensures controller != null && (selection.None? || selection.value == []) ==>
        selecting == old(selecting) - textLayers.Keys
        && detached == old(detached) - textLayers.Values && sized == old(sized) - textLayers.Values
      ensures controller != null && selection.Some? && selection.value != [] ==>
        var active := Active(textLayers.Keys, selection.value, intersects);
        && selecting == (old(selecting) - textLayers.Keys) + active
        && detached == old(detached) - EndDivsOf(textLayers, textLayers.Keys - active)
        && sized == old(sized) - EndDivsOf(textLayers, textLayers.Keys - active)
    {
      if controller == null {
        return;
      }
      if selection.None? || |selection.value| == 0 {
        ResetAll();
        return;
      }
      var active := ActiveTextLayers(selection.value, intersects);
      MarkSelecting(active);
    }

    /** Lines 171-177: active layers get `selecting`, the other registered layers are reset. */
    method MarkSelecting(active: set<Layer>)
      modifies this`detached, this`sized, this`selecting
      ensures selecting == (old(selecting) - (textLayers.Keys - active)) + (textLayers.Keys * active)
      ensures detached == old(detached) - EndDivsOf(textLayers, textLayers.Keys - active)
      ensures sized == old(sized) - EndDivsOf(textLayers, textLayers.Keys - active)
    {
      var todo := textLayers.Keys;
      ghost var done: set<Layer> := {};
      while todo != {}
        invariant todo + done == textLayers.Keys && todo !! done
        invariant selecting == (old(selecting) - (done - active)) + (done * active)
        invariant detached == old(detached) - EndDivsOf(textLayers, done - active)
        invariant sized == old(sized) - EndDivsOf(textLayers, done - active)
        decreases todo
      {
        var layer :| layer in todo;
        if layer in active {
          selecting := selecting + {layer};
          assert (done + {layer}) - active == done - active;
        } else {
          Reset(textLayers[layer], layer);
          EndDivsOfAdd(textLayers, done - active, layer);
          assert (done + {layer}) - active == (done - active) + {layer};
        }
        todo := todo - {layer};
        done := done + {layer};
      }
    }
  }
}
