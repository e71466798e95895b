/**
 The clipboard shared between editors. The source keeps it in one
 module-level variable; here that variable is a `ClipboardHelper` object
 handed to each `SharedClipboardEditor`, and editors given the same
 object share one clipboard.
 */
module Clipboard {
  import opened Wrappers

  /** The single shared clipboard slot; None until something is set. */
  class ClipboardHelper<T> {
    var globalClipboard: Option<T>

    constructor ()
      ensures globalClipboard.None?
    {
      globalClipboard := None;
    }

    /** Replaces whatever was stored before. */
    method Set(clipboard: T)
      modifies this
      ensures globalClipboard == Some(clipboard)
    {
      globalClipboard := Some(clipboard);
    }

    /** The value most recently set, or None if nothing was set yet. */
    method Get() returns (r: Option<T>)
      ensures r == globalClipboard
    {
      r := globalClipboard;
    }
  }

  /** An editor whose clipboard is the shared one rather than its own. */
  class SharedClipboardEditor<T> {
    const clipboard: ClipboardHelper<T>

    constructor (shared: ClipboardHelper<T>)
      ensures clipboard == shared
    {
      clipboard := shared;
    }

    method SetClipboard(value: T)
      modifies clipboard
      ensures clipboard.globalClipboard == Some(value)
    {
      clipboard.Set(value);
    }

    method GetClipboard() returns (r: Option<T>)
      ensures r == clipboard.globalClipboard
    {
      r := clipboard.Get();
    }
  }

  /**
   Two editors over the same clipboard: what one sets, the other gets, and
   a later set by either one wins.
   */
  method CopyBetweenEditors() {
    var shared := new ClipboardHelper<string>();
    var first := new SharedClipboardEditor(shared);
    var second := new SharedClipboardEditor(shared);
    first.SetClipboard("copied");
    var got := second.GetClipboard();
    assert got == Some("copied");
    second.SetClipboard("again");
    got := first.GetClipboard();
    assert got == Some("again");
  }
}
