# draft-js-typeahead, modelled in Dafny

This project models the typeahead ("@mention" trigger) logic of the
`TypeaheadEditor` in `src/index.js`, a wrapper around a Draft.js editor. The
model covers four things:

- `normalizeSelectedIndex` wraps an unbounded suggestion index into the list.
- `lastIndexNotEscaped` finds the last trigger token that is not followed by
  an escape marker.
- `getTypeaheadRange` computes the span from the trigger token to the cursor.
- The editor's `typeaheadState` moves between "no popup" and "popup on text T
  with suggestion i highlighted" on content changes and on the escape, arrow
  and return keys.

It also models the clipboard that all editors share.

Modules:

- `JsBuiltins` (`js_builtins.dfy`) spells out the JavaScript built-ins the
  code relies on:
  - `%` on integers, which truncates, unlike Dafny's Euclidean `%`;
  - `String.prototype.lastIndexOf`;
  - `substring`, which clamps its bounds;
  - `||` between strings, where the empty string is falsy.
- `Typeahead` (`typeahead.dfy`) holds the pure functions. The browser's
  selection and the editor's selection are passed in as plain values:
  - `DomSelection`: the range count, the text of the cursor's container and
    the cursor offset;
  - `EditorSelection`: focus, and whether an entity covers the character
    before the cursor.
- `TypeaheadEditors` (`typeahead_editor.dfy`) holds the class
  `TypeaheadEditor`:
  - Its one mutable field is `typeaheadState`.
  - Its methods are the source's handlers.
  - Each handler's effect on the outside is returned as output values:
    - whether the event is forwarded to the caller's own handler;
    - whether the default is prevented;
    - the `Notice` that the `onTypeaheadChange` listener receives;
    - the arguments passed to `handleTypeaheadReturn`;
    - whether the diagnostic is issued.
  - Its invariant `Valid()` says that an open popup's text always begins with
    the trigger token.
- `Clipboard` (`clipboard.dfy`) models the module-level clipboard as a
  `ClipboardHelper` object that is passed to each `SharedClipboardEditor`.
  Editors given the same object share one clipboard (`CopyBetweenEditors`).

Two behaviours of the code are kept as written:

- An occurrence of the token is escaped only when the escape marker directly
  FOLLOWS it (`text.lastIndexOf(search + escapeCharacter)`, line 36). A marker
  placed in front of the token does not escape it.
- The end-token scan (line 81) reads the misspelled prop `esacapeToken`. So
  unless that misspelled prop is given, the end token is escaped only by the
  default zero-width space (U+200B), whatever `escapeToken` says.

Props are strings. The empty string stands for a prop that is not supplied,
because JavaScript's `||` treats both as falsy.

## Model

| member | source | states |
|---|---|---|
| JsBuiltins.Remainder | src/index.js:24 | JavaScript's `%`: the remainder is smaller than the divisor in magnitude, carries the dividend's sign, and differs from the dividend by a multiple of the divisor |
| Typeahead.NormalizeSelectedIndex | src/index.js:23-29 | for `max > 0`: the result lies in `[0, max)`, is congruent to the index modulo `max`, and is the index itself when that is already in `[0, max)` |
| Typeahead.NormalizeIsEuclideanModulo | src/index.js:23-29 | for `max > 0`, the wrapped index equals the Euclidean `selectedIndex % max`, for negative indices too |
| Typeahead.CongruentAfterShift | src/index.js:25-27 | adding `max` to a negative remainder keeps it congruent to the index |
| JsBuiltins.LastIndexOf | src/index.js:32 | `lastIndexOf` is -1 exactly when `search` does not occur; otherwise it is an occurrence with no occurrence after it |
| JsBuiltins.LastIndexAtOrBefore | src/index.js:32 | the backward scan behind `lastIndexOf`: the result is the latest occurrence starting at or before `i`, or -1 when there is none |
| Typeahead.LastIndexNotEscaped | src/index.js:31-41 | the result is -1 or the last occurrence of `search`, and that occurrence is not followed by the escape marker; the result is -1 exactly when every last occurrence is escaped, which includes the case of no occurrence |
| Typeahead.EscapedIsOccurrence | src/index.js:36 | an occurrence of `search + escape` is an occurrence of `search`, so the escaped index never passes the plain one |
| Typeahead.LastIndexNotEscapedAt | src/index.js:31-41 | given the last occurrence `i`, the scanner returns -1 if the escape marker follows `i`, and `i` otherwise; it never falls back to an earlier occurrence |
| Typeahead.LastTokenChosen | src/index.js:31-41 | worked case: of two tokens, the scanner picks the last |
| Typeahead.EscapedLastTokenRejected | src/index.js:36-39 | worked case: an escaped last token gives -1, with no fallback to an earlier unescaped token |
| Typeahead.MarkerBeforeTokenIgnored | src/index.js:36-39 | worked case: an escape marker placed before the token does not escape it |
| JsBuiltins.Substring | src/index.js:76 | `substring` clamps both bounds to the string and swaps them when they come in reverse order; every combination of in-range and out-of-range bounds is stated |
| Typeahead.TextBeforeCursor | src/index.js:73-76 | the container text is cut at the cursor, and is the whole text when the cursor lies beyond its end |
| Typeahead.GetTypeaheadRange | src/index.js:49-96 | None with no selection range, and None when an entity sits before a focused cursor. Otherwise a result satisfies: `end` is the cursor offset; `text` is the text before the cursor from `start` on, which is `content[start..end]`; `text` begins with the token; `start` is the last, unescaped token; no unescaped last end token lies after `start` |
| Typeahead.NothingUnescapedAfter | src/index.js:80-85 | when the end-token scan's result is not after the start index, no unescaped last end token lies after it |
| Typeahead.RangeText | src/index.js:89 | `text.substring(index)` taken from a token occurrence is the rest of the text and begins with the token |
| Typeahead.TypeaheadRangeFound | src/index.js:78-95 | conversely, with a range, no entity, an unescaped last token at `i` and no later unescaped end token, the result is exactly `(text[i..], i, cursor)` |
| Typeahead.EndTokenCancels | src/index.js:80-88 | with an end token configured, an unescaped last end token that lies after every unescaped start token cancels the typeahead, even when there is no start token at all |
| Typeahead.EndTokenClosesTypeahead | src/index.js:80-85 | with end token `]]`, the text `@a]]` followed by any character other than `@`, `]` and U+200B gives no typeahead, whatever `escapeToken` is: a backslash `escapeToken` after `]]` does not escape it, because line 81 reads `esacapeToken` |
| JsBuiltins.OrDefault | src/index.js:79 | the JavaScript logical or on strings: the value unless it is empty, else the fallback |
| TypeaheadEditors.NoticeOf | src/index.js:142 | the listener is notified exactly when it is supplied, and then with the given state |
| TypeaheadEditors.StateFor | src/index.js:103-121 | a recomputation yields no state exactly when there is no range; otherwise it yields the range's text, index 0 and the rectangle's left and bottom |
| TypeaheadEditors.TypeaheadEditor.constructor | src/index.js:44-47 | a new editor has no typeahead state |
| TypeaheadEditors.TypeaheadEditor.GetTypeaheadState | src/index.js:98-122 | without `invalidate`, it returns the state unchanged; with it, it installs and returns the recomputed state and keeps the token invariant |
| TypeaheadEditors.TypeaheadEditor.OnChange | src/index.js:124-134 | with a listener, the state is recomputed and the listener hears it, whether or not it changed; without one, nothing changes |
| TypeaheadEditors.TypeaheadEditor.OnEscape | src/index.js:136-143 | the event is forwarded to `onEscape` if given and the default is prevented; the state becomes null and the listener hears null |
| TypeaheadEditors.TypeaheadEditor.OnArrow | src/index.js:145-160 | with no popup, only the original handler sees the event and nothing changes. With a popup, the default is prevented and only `selectedIndex` moves, by exactly the nudge and without wrapping; the listener hears the new state |
| TypeaheadEditors.TypeaheadEditor.OnUpArrow | src/index.js:162-164 | an arrow move of -1, forwarded to `onUpArrow` when no popup is open |
| TypeaheadEditors.TypeaheadEditor.OnDownArrow | src/index.js:166-168 | an arrow move of +1, forwarded to `onDownArrow` when no popup is open |
| TypeaheadEditors.TypeaheadEditor.HandleReturn | src/index.js:170-195 | handled exactly when a popup is open. With a callback, it receives the text, the index and a selection whose focus minus anchor is the text's length, and the text it receives begins with the trigger token; the state becomes null and the listener hears null. Without one, a diagnostic is issued and the state is unchanged. With no popup, nothing happens |
| Clipboard.ClipboardHelper.constructor | src/index.js:4 | the clipboard starts empty |
| Clipboard.ClipboardHelper.Set | src/index.js:7-9 | the stored value is replaced by the new one |
| Clipboard.ClipboardHelper.Get | src/index.js:10-12 | returns the value most recently set |
| Clipboard.SharedClipboardEditor.constructor | src/index.js:15-17 | an editor refers to the clipboard it is given |
| Clipboard.SharedClipboardEditor.SetClipboard | src/index.js:18 | setting through an editor replaces the value of the clipboard it refers to |
| Clipboard.SharedClipboardEditor.GetClipboard | src/index.js:19 | getting through an editor returns the value of the clipboard it refers to |

## Left out

- `render()` is left out (lines 197-215). Prop forwarding, React composition and the inheritance from Draft.js `Editor` are UI composition. The clipboard methods are modelled on `SharedClipboardEditor` alone.
- The DOM selection API is not modelled: `window.getSelection`, `getRangeAt`, `cloneRange`, `setStart` and `textContent`. The model takes the range count, the container's text and the start offset as inputs (`DomSelection`).
- `getBoundingClientRect` is left out. Its left and bottom are an input `Rect` of reals, copied into the state and never computed with.
- The Draft.js `EditorState`, `SelectionState` and `block.getEntityAt` are foreign code. They are reduced to two booleans: focus, and an entity before the cursor. What `getEntityAt(-1)` does at offset 0 belongs to Draft.js and is folded into that boolean.
- HandleReturn: of the Draft.js selection passed to `handleTypeaheadReturn`, only the anchor and focus offsets are modelled. The model takes the focus offset as input and does not model the other fields of the selection (keys, direction).
- OnChange: the `requestAnimationFrame` deferral is not modelled. The recomputation runs at once. The order and overlap of several pending frame callbacks are event-loop scheduling.
- OnChange: the unconditional call to `props.onChange` (line 125) is not returned as an output, since it always happens.
- HandleReturn: the `console.error` diagnostic is I/O. It is the `warned` output, and the state does not change.
- Calls to external handlers and to `preventDefault` are recorded as output flags. Their own effects are not modelled.
- OnArrow: line 155 also increments `selectedIndex` in place on the previous state object, which an earlier notification may have handed to the listener. The model's states are values, so that earlier notice keeps its old index. This aliasing is not captured.
- TypeaheadEditor: props are fixed per instance (`tokens`, `handlers`). A host that changes props between events is not modelled.
- Props of types other than strings, and JavaScript's other falsy values, are not modelled. An unsupplied string prop is the empty string.
- NormalizeSelectedIndex: `max == 0` is excluded by its precondition, because in JavaScript the result is NaN, which is not an integer. For a negative `max` the value is computed but no property is stated, since suggestion counts are never negative.
- Strings are sequences of characters, and each character stands for one UTF-16 code unit. JavaScript counts a character outside the Basic Multilingual Plane as two units. The model does not capture that.
- SharedClipboardEditor: the module-level variable becomes an object passed to each editor's constructor. Keeping a single shared instance, as the module variable guarantees, is the caller's responsibility.
- ClipboardHelper: a stored `null` and an empty clipboard are indistinguishable in JavaScript. In the model they are `Some(null-like value)` and `None`. The unused parameter of `get` is dropped.
