/**
 The typeahead-aware editor: an object whose `typeaheadState` is either
 null (no popup) or the popup's anchor, the matched text and the
 highlighted suggestion index. Its key and change handlers move that
 state and tell the listener `onTypeaheadChange` about it.

 Calls to the caller-supplied handlers are returned as output values:
 a flag for each handler that is forwarded the event, a `Notice` for
 what the listener receives, and a `ReturnCall` for the arguments of
 `handleTypeaheadReturn`.
 */
module TypeaheadEditors {
  import opened Wrappers
  import opened JsBuiltins
  import opened Typeahead

  /** Which optional handlers the caller supplied. */
  datatype Handlers = Handlers(
    onTypeaheadChange: bool,
    handleTypeaheadReturn: bool,
    onEscape: bool,
    onUpArrow: bool,
    onDownArrow: bool)

  /** The bounding rectangle the document reports for the typeahead range. */
  datatype Rect = Rect(left: real, bottom: real)

  /** The popup state: its screen anchor, the matched text and the highlighted suggestion. */
  datatype TypeaheadState = TypeaheadState(left: real, top: real, text: string, selectedIndex: int)

  /** What the `onTypeaheadChange` listener receives, if it is called at all. */
  datatype Notice = Silent | Notified(state: Option<TypeaheadState>)

  /** The editor selection handed to `handleTypeaheadReturn`: only its offsets are modelled. */
  datatype EntitySelection = EntitySelection(anchorOffset: int, focusOffset: int)

  /** The arguments of one call to `handleTypeaheadReturn`. */
  datatype ReturnCall = ReturnCall(text: string, selectedIndex: int, selection: EntitySelection)

  /** The notice sent to the listener when there is one. */
  function NoticeOf(handlers: Handlers, state: Option<TypeaheadState>): (n: Notice)
    ensures n.Notified? <==> handlers.onTypeaheadChange
    ensures n.Notified? ==> n.state == state
  {
    if handlers.onTypeaheadChange then Notified(state) else Silent
  }

  /**
   The state a range recomputation installs: none without a range, and
   otherwise the range's text with the first suggestion highlighted,
   anchored at the left and bottom of the range's rectangle.
   */
  function StateFor(range: Option<TypeaheadRange>, rect: Rect): (s: Option<TypeaheadState>)
    ensures s.None? <==> range.None?
    ensures s.Some? ==> s.value.text == range.value.text && s.value.selectedIndex == 0
    ensures s.Some? ==> s.value.left == rect.left && s.value.top == rect.bottom
  {
    match range
    case None => None
    case Some(r) => Some(TypeaheadState(rect.left, rect.bottom, r.text, 0))
  }

  class TypeaheadEditor {
    const tokens: TokenProps
    const handlers: Handlers
    var typeaheadState: Option<TypeaheadState>

    /** An open popup's text always begins with the trigger token. */
    ghost predicate Valid()
      reads this
    {
      typeaheadState.Some? ==> StartsWith(typeaheadState.value.text, Token(tokens))
    }

    constructor (tokens: TokenProps, handlers: Handlers)
      ensures Valid()
      ensures this.tokens == tokens && this.handlers == handlers
      ensures typeaheadState.None?
    {
      this.tokens := tokens;
      this.handlers := handlers;
      typeaheadState := None;
    }

    /**
     Without `invalidate`, the current state. With it, the state is
     recomputed from the cursor: none when there is no typeahead range,
     and otherwise the range's text with index 0.
     */
    method GetTypeaheadState(invalidate: bool, editor: EditorSelection, dom: DomSelection, rect: Rect)
      returns (s: Option<TypeaheadState>)
      requires Valid()
      modifies this
      ensures Valid()
      ensures s == typeaheadState
      ensures !invalidate ==> typeaheadState == old(typeaheadState)
      ensures invalidate ==> typeaheadState == StateFor(GetTypeaheadRange(tokens, editor, dom), rect)
    {
      if !invalidate {
        return typeaheadState;
      }
      var typeaheadRange := GetTypeaheadRange(tokens, editor, dom);
      if typeaheadRange.None? {
        typeaheadState := None;
        return None;
      }
      typeaheadState := Some(TypeaheadState(rect.left, rect.bottom, typeaheadRange.value.text, 0));
      return typeaheadState;
    }

    /**
     A content change, with the recomputation that the next animation
     frame runs. The recomputation is scheduled only when a listener is
     present; it then always notifies, changed state or not.
     */
    method OnChange(editor: EditorSelection, dom: DomSelection, rect: Rect) returns (notice: Notice)
      requires Valid()
      modifies this
      ensures Valid()
      ensures !handlers.onTypeaheadChange ==> typeaheadState == old(typeaheadState) && notice == Silent
      ensures handlers.onTypeaheadChange ==>
        typeaheadState == StateFor(GetTypeaheadRange(tokens, editor, dom), rect) &&
        notice == Notified(typeaheadState)
    {
      notice := Silent;
      if handlers.onTypeaheadChange {
        var s := GetTypeaheadState(true, editor, dom, rect);
        notice := Notified(s);
      }
    }

    /** Escape: forwards to `onEscape` if given, prevents the default, closes the popup and says so. */
    method OnEscape() returns (forwarded: bool, prevented: bool, notice: Notice)
      requires Valid()
      modifies this
      ensures Valid()
      ensures typeaheadState.None?
      ensures forwarded == handlers.onEscape && prevented
      ensures notice == NoticeOf(handlers, None)
    {
      forwarded := handlers.onEscape;
      prevented := true;
      typeaheadState := None;
      notice := NoticeOf(handlers, None);
    }

    /**
     An arrow key. With no popup, only the original handler (if any) sees
     the event. With a popup, the default is prevented and the highlighted
     index moves by `nudgeAmount`, unwrapped; anchor and text stay.
     */
    method OnArrow(hasOriginalHandler: bool, nudgeAmount: int) returns (forwarded: bool, prevented: bool, notice: Notice)
      requires Valid()
      modifies this
      ensures Valid()
      ensures old(typeaheadState).None? ==>
        typeaheadState == old(typeaheadState) && forwarded == hasOriginalHandler && !prevented && notice == Silent
      ensures old(typeaheadState).Some? ==>
        var was := old(typeaheadState).value;
        && typeaheadState == Some(was.(selectedIndex := was.selectedIndex + nudgeAmount))
        && !forwarded && prevented
        && notice == NoticeOf(handlers, typeaheadState)
    {
      var current := typeaheadState;  // the state as it stands, not recomputed
      if current.None? {
        return hasOriginalHandler, false, Silent;
      }
      var state := current.value;
      typeaheadState := Some(state.(selectedIndex := state.selectedIndex + nudgeAmount));
      return false, true, NoticeOf(handlers, typeaheadState);
    }

    /** Up arrow: the highlighted index moves back by one. */
    method OnUpArrow() returns (forwarded: bool, prevented: bool, notice: Notice)
      requires Valid()
      modifies this
      ensures Valid()
      ensures old(typeaheadState).None? ==>
        typeaheadState == old(typeaheadState) && forwarded == handlers.onUpArrow && !prevented && notice == Silent
      ensures old(typeaheadState).Some? ==>
        typeaheadState == Some(old(typeaheadState).value.(selectedIndex := old(typeaheadState).value.selectedIndex - 1))
        && !forwarded && prevented && notice == NoticeOf(handlers, typeaheadState)
    {
      forwarded, prevented, notice := OnArrow(handlers.onUpArrow, -1);
    }

    /** Down arrow: the highlighted index moves on by one. */
    method OnDownArrow() returns (forwarded: bool, prevented: bool, notice: Notice)
      requires Valid()
      modifies this
      ensures Valid()
      ensures old(typeaheadState).None? ==>
        typeaheadState == old(typeaheadState) && forwarded == handlers.onDownArrow && !prevented && notice == Silent
      ensures old(typeaheadState).Some? ==>
        typeaheadState == Some(old(typeaheadState).value.(selectedIndex := old(typeaheadState).value.selectedIndex + 1))
        && !forwarded && prevented && notice == NoticeOf(handlers, typeaheadState)
    {
      forwarded, prevented, notice := OnArrow(handlers.onDownArrow, 1);
    }

    /**
     Return. With no popup it is not handled. With a popup it is handled:
     if `handleTypeaheadReturn` is given, it receives the matched text, the
     highlighted index and a selection that spans the matched text and
     ends at `focusOffset`, and the popup closes; otherwise a diagnostic is
     issued and the popup stays.
     */
    method HandleReturn(focusOffset: int) returns (handled: bool, call: Option<ReturnCall>, warned: bool, notice: Notice)
      requires Valid()
      modifies this
      ensures Valid()
      ensures handled <==> old(typeaheadState).Some?
      ensures call.Some? ==> call.value.selection.focusOffset - call.value.selection.anchorOffset == |call.value.text|
      ensures call.Some? ==> StartsWith(call.value.text, Token(tokens))
      ensures old(typeaheadState).None? ==>
        typeaheadState == old(typeaheadState) && call.None? && !warned && notice == Silent
      ensures old(typeaheadState).Some? && handlers.handleTypeaheadReturn ==>
        var was := old(typeaheadState).value;
        && call == Some(ReturnCall(was.text, was.selectedIndex,
                                   EntitySelection(focusOffset - |was.text|, focusOffset)))
        && typeaheadState.None? && !warned && notice == NoticeOf(handlers, None)
      ensures old(typeaheadState).Some? && !handlers.handleTypeaheadReturn ==>
        typeaheadState == old(typeaheadState) && call.None? && warned && notice == Silent
    {
      call, warned, notice := None, false, Silent;
      if typeaheadState.Some? {
        if handlers.handleTypeaheadReturn {
          var state := typeaheadState.value;
          var entitySelection := EntitySelection(focusOffset - |state.text|, focusOffset);
          call := Some(ReturnCall(state.text, state.selectedIndex, entitySelection));
          typeaheadState := None;
          notice := NoticeOf(handlers, None);
        } else {
          warned := true;
        }
        return true, call, warned, notice;
      }
      return false, call, warned, notice;
    }
  }

  /**
   A session: "@al" typed after "hi " opens the popup on "@al" with the
   first suggestion highlighted; down moves to the second; escape closes
   the popup and the listener hears null.
   */
  method MentionSession() {
    var editor := new TypeaheadEditor(TokenProps("", "", "", ""), Handlers(true, true, false, false, false));
    var t := "hi @al";
    assert TextBeforeCursor(DomSelection(1, t, 6)) == t;
    LastCharOccurrence(t, '@', 3);
    assert t[3..5] == "@a" && ("@" + ZeroWidthSpace)[1] != 'a';
    TypeaheadRangeFound(editor.tokens, EditorSelection(true, false), DomSelection(1, t, 6), 3);
    var notice := editor.OnChange(EditorSelection(true, false), DomSelection(1, t, 6), Rect(4.0, 18.0));
    assert editor.typeaheadState == Some(TypeaheadState(4.0, 18.0, "@al", 0));
    assert notice == Notified(editor.typeaheadState);

    var forwarded, prevented;
    forwarded, prevented, notice := editor.OnDownArrow();
    assert editor.typeaheadState == Some(TypeaheadState(4.0, 18.0, "@al", 1));
    assert prevented && !forwarded;

    forwarded, prevented, notice := editor.OnEscape();
    assert editor.typeaheadState.None? && notice == Notified(None);

    var handled, call, warned;
    handled, call, warned, notice := editor.HandleReturn(6);
    assert !handled && call.None?;
  }
}
