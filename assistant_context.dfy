/** The assistant panel's shared state (src/context/AssitantContext.jsx). */
module AssistantContext {
  import opened Wrappers

  /** The pair of flags after `toggleAssistant`, from the flags before. The
      handler reads `isAssistantOpen` from its closure, so it is the value
      before the toggle that decides whether `minimized` is cleared. */
  function ToggledAssistant(open: bool, minimized: bool): (r: (bool, bool))
    ensures r.0 == !open
    ensures !open ==> !r.1
    ensures open ==> r.1 == minimized
  {
    (!open, if !open then false else minimized)
  }

  /** Toggling twice restores the open flag; a panel that ends up open after
      it was opened is not minimised. */
  lemma ToggleTwiceRestoresOpen(open: bool, minimized: bool)
    ensures var (o1, m1) := ToggledAssistant(open, minimized);
      ToggledAssistant(o1, m1).0 == open
    ensures !open ==> ToggledAssistant(open, minimized) == (true, false)
    ensures open ==> ToggledAssistant(ToggledAssistant(open, minimized).0, ToggledAssistant(open, minimized).1) == (true, false)
  {
  }

  class AssistantProvider {
    var isAssistantOpen: bool
    var minimized: bool
    var currentCourse: Option<string>

    /** The initial state: open, not minimised, no course. */
    constructor ()
      ensures isAssistantOpen && !minimized && currentCourse == None
    {
      isAssistantOpen := true;
      minimized := false;
      currentCourse := None;
    }

    method ToggleAssistant()
      modifies this`isAssistantOpen, this`minimized
      ensures (isAssistantOpen, minimized) == ToggledAssistant(old(isAssistantOpen), old(minimized))
    {
      if !isAssistantOpen {
        minimized := false;
      }
      isAssistantOpen := !isAssistantOpen;
    }

    method ToggleMinimized()
      modifies this`minimized
      ensures minimized == !old(minimized)
    {
      minimized := !minimized;
    }

    method SetCurrentCourse(c: Option<string>)
      modifies this`currentCourse
      ensures currentCourse == c
    {
      currentCourse := c;
    }
  }

  /** A fresh provider closed, minimised and opened again is open and not
      minimised. */
  method CloseMinimizeOpen() returns (open: bool, minimized: bool)
    ensures open && !minimized
  {
    var p := new AssistantProvider();
    p.ToggleAssistant();
    p.ToggleMinimized();
    p.ToggleAssistant();
    open, minimized := p.isAssistantOpen, p.minimized;
  }
}
