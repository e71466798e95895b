/**
 The pure part of the typeahead trigger: wrapping a suggestion index into
 the list, finding the last unescaped trigger token, and computing the
 typeahead range (from the trigger token to the cursor) once the editor's
 and the document's selection have been read into plain values.
 */
module Typeahead {
  import opened Wrappers
  import opened JsBuiltins

  /** The default escape marker: a single zero-width space (U+200B). */
  const ZeroWidthSpace: string := "\U{200B}"

  /** The default trigger token. */
  const DefaultToken: string := "@"

  /**
   The editor's token configuration. Each field is a string; the empty
   string stands for a prop that is not supplied (JavaScript treats both
   as falsy). `esacapeToken` is the misspelled prop name that the
   end-token scan reads.
   */
  datatype TokenProps = TokenProps(
    token: string,
    endToken: string,
    escapeToken: string,
    esacapeToken: string)

  /** What the editor framework's selection reports. */
  datatype EditorSelection = EditorSelection(
    hasFocus: bool,
    entityBeforeStart: bool)  // an entity covers the character just before the selection start

  /** What the document's selection reports about the cursor. */
  datatype DomSelection = DomSelection(
    rangeCount: nat,
    startText: string,  // the text content of the first range's start container
    startOffset: nat)   // the first range's start offset in that container

  /** The active typeahead span: the token and the query typed after it. */
  datatype TypeaheadRange = TypeaheadRange(text: string, start: int, end: int)

  /**
   Wraps a suggestion index into the suggestion list. For a positive
   `max` the result lies in `[0, max)`, differs from `selectedIndex` by a
   multiple of `max`, and is `selectedIndex` itself when that is already
   in range.
   */
  function NormalizeSelectedIndex(selectedIndex: int, max: int): (r: int)
    requires max != 0
    ensures max > 0 ==> 0 <= r < max
    ensures max > 0 ==> (selectedIndex - r) % max == 0
    ensures 0 <= selectedIndex < max ==> r == selectedIndex
  {
    var index := Remainder(selectedIndex, max);
    if index < 0 then
      CongruentAfterShift(selectedIndex, index, max);
      index + max
    else
      index
  }

  /** Adding the modulus to a value congruent to `a` keeps it congruent. */
  lemma CongruentAfterShift(a: int, r: int, b: int)
    requires b != 0 && (a - r) % Abs(b) == 0
    ensures (a - (r + b)) % Abs(b) == 0
  {
    var m := Abs(b);
    var k := (a - r) / m;
    assert a - r == m * k;
    var k' := if b > 0 then k - 1 else k + 1;
    assert a - (r + b) == m * k';
    MultipleHasNoRemainder(m, k');
  }

  /**
   For a positive `max`, wrapping an index agrees with Euclidean modulo,
   whatever the sign of the index.
   */
  lemma NormalizeIsEuclideanModulo(selectedIndex: int, max: int)
    requires max > 0
    ensures NormalizeSelectedIndex(selectedIndex, max) == selectedIndex % max
  {
    var r := NormalizeSelectedIndex(selectedIndex, max);
    var q := (selectedIndex - r) / max;
    assert selectedIndex - r == max * q + (selectedIndex - r) % max;
    EuclideanRemainderUnique(selectedIndex, max, q, r);
  }

  /** An occurrence of `search` at `i` is escaped: `escape` follows it directly. */
  predicate EscapedAt(text: string, search: string, escape: string, i: int) {
    OccursAt(text, search + escape, i)
  }

  /** `i` is the last occurrence of `search` in `text`, and it is not escaped. */
  ghost predicate IsLastUnescaped(text: string, search: string, escape: string, i: int) {
    IsLastOccurrence(text, search, i) && !EscapedAt(text, search, escape, i)
  }

  /** An occurrence of `search + escape` is an occurrence of `search`. */
  lemma EscapedIsOccurrence(text: string, search: string, escape: string, i: int)
    requires EscapedAt(text, search, escape, i)
    ensures OccursAt(text, search, i)
  {
    assert text[i..i + |search|] == (search + escape)[..|search|];
  }

  /**
   The last occurrence of `search` in `text` if the escape marker does not
   follow it, and -1 when there is no occurrence or the last one is
   escaped. Earlier occurrences are never considered.
   */
  function LastIndexNotEscaped(text: string, search: string, escapeCharacter: string): (r: int)
    ensures r == -1 || IsLastUnescaped(text, search, escapeCharacter, r)
    ensures r == -1 <==> forall i :: IsLastOccurrence(text, search, i) ==> EscapedAt(text, search, escapeCharacter, i)
  {
    var index := LastIndexOf(text, search);
    if index == -1 then
      -1
    else
      var indexOfEscaped := LastIndexOf(text, search + escapeCharacter);
      assert indexOfEscaped != -1 ==> OccursAt(text, search, indexOfEscaped) by {
        if indexOfEscaped != -1 {
          EscapedIsOccurrence(text, search, escapeCharacter, indexOfEscaped);
        }
      }
      if indexOfEscaped == index then -1 else index
  }

  /**
   `LastIndexNotEscaped` is -1 exactly when `search` does not occur or its
   last occurrence is followed by the escape marker, and otherwise it is
   that last occurrence.
   */
  lemma LastIndexNotEscapedAt(text: string, search: string, escape: string, i: int)
    requires IsLastOccurrence(text, search, i)
    ensures LastIndexNotEscaped(text, search, escape) == (if EscapedAt(text, search, escape, i) then -1 else i)
  {
  }

  function Token(props: TokenProps): string {
    OrDefault(props.token, DefaultToken)
  }

  function StartEscape(props: TokenProps): string {
    OrDefault(props.escapeToken, ZeroWidthSpace)
  }

  /** The escape used for the end token: the misspelled prop, or the default. */
  function EndEscape(props: TokenProps): string {
    OrDefault(props.esacapeToken, ZeroWidthSpace)
  }

  /** The text of the cursor's container up to the cursor. */
  function TextBeforeCursor(dom: DomSelection): (t: string)
    ensures dom.startOffset <= |dom.startText| ==> t == dom.startText[..dom.startOffset]
    ensures dom.startOffset >= |dom.startText| ==> t == dom.startText
  {
    Substring(dom.startText, 0, dom.startOffset)
  }

  /**
   An entity sits just before the selection start; an unfocused selection
   never reports one.
   */
  predicate HasEntityAtSelection(editor: EditorSelection) {
    editor.hasFocus && editor.entityBeforeStart
  }

  /**
   The typeahead range at the cursor, or None. None when the document has
   no selection range or an entity sits just before a focused cursor.
   Otherwise the range starts at the last unescaped trigger token in the
   text before the cursor, ends at the cursor, and holds the text between;
   and with an end token configured, no unescaped last end token lies
   after the trigger token.
   */
  function GetTypeaheadRange(props: TokenProps, editor: EditorSelection, dom: DomSelection): (r: Option<TypeaheadRange>)
    ensures dom.rangeCount == 0 ==> r.None?
    ensures editor.hasFocus && editor.entityBeforeStart ==> r.None?
    ensures r.Some? ==>
      var t := TextBeforeCursor(dom);
      && r.value.end == dom.startOffset
      && 0 <= r.value.start <= |t|
      && r.value.text == t[r.value.start..]
      && StartsWith(r.value.text, Token(props))
      && IsLastUnescaped(t, Token(props), StartEscape(props), r.value.start)
      && (props.endToken != "" ==>
            forall j :: IsLastUnescaped(t, props.endToken, EndEscape(props), j) ==> j <= r.value.start)
    ensures r.Some? && dom.startOffset <= |dom.startText| ==>
      r.value.start <= r.value.end && r.value.text == dom.startText[r.value.start..r.value.end]
  {
    if dom.rangeCount == 0 then
      None
    else if HasEntityAtSelection(editor) then
      None
    else
      var text := TextBeforeCursor(dom);
      var index := LastIndexNotEscaped(text, Token(props), StartEscape(props));
      if props.endToken != "" && LastIndexNotEscaped(text, props.endToken, EndEscape(props)) > index then
        None
      else if index == -1 then
        None
      else
        assert props.endToken != "" ==>
          forall j :: IsLastUnescaped(text, props.endToken, EndEscape(props), j) ==> j <= index
        by {
          if props.endToken != "" {
            NothingUnescapedAfter(text, props.endToken, EndEscape(props), index);
          }
        }
        RangeText(text, Token(props), StartEscape(props), index);
        Some(TypeaheadRange(Substring(text, index, |text|), index, dom.startOffset))
  }

  /** A scanner result at or before `index` leaves no unescaped last occurrence after `index`. */
  lemma NothingUnescapedAfter(text: string, search: string, escape: string, index: int)
    requires LastIndexNotEscaped(text, search, escape) <= index
    ensures forall j :: IsLastUnescaped(text, search, escape, j) ==> j <= index
  {
  }

  /** The text from an occurrence of `token` to the end begins with `token`. */
  lemma RangeText(text: string, token: string, escape: string, index: int)
    requires IsLastUnescaped(text, token, escape, index)
    ensures Substring(text, index, |text|) == text[index..]
    ensures StartsWith(text[index..], token)
  {
  }

  /**
   The converse of GetTypeaheadRange's contract: with a selection range, no
   entity before a focused cursor, the last trigger token unescaped at
   `i`, and no unescaped last end token after it, the range is found and
   starts at `i`.
   */
  lemma TypeaheadRangeFound(props: TokenProps, editor: EditorSelection, dom: DomSelection, i: int)
    requires dom.rangeCount > 0 && !HasEntityAtSelection(editor)
    requires IsLastUnescaped(TextBeforeCursor(dom), Token(props), StartEscape(props), i)
    requires props.endToken != "" ==>
      forall j :: IsLastUnescaped(TextBeforeCursor(dom), props.endToken, EndEscape(props), j) ==> j <= i
    ensures GetTypeaheadRange(props, editor, dom) ==
      Some(TypeaheadRange(TextBeforeCursor(dom)[i..], i, dom.startOffset))
  {
  }

  /**
   With an end token configured, an unescaped last end token at `j` cancels
   the typeahead when the trigger token has no unescaped last occurrence,
   or has one before `j`.
   */
  lemma EndTokenCancels(props: TokenProps, editor: EditorSelection, dom: DomSelection, j: int)
    requires props.endToken != ""
    requires IsLastUnescaped(TextBeforeCursor(dom), props.endToken, EndEscape(props), j)
    requires forall i :: IsLastUnescaped(TextBeforeCursor(dom), Token(props), StartEscape(props), i) ==> i < j
    ensures GetTypeaheadRange(props, editor, dom).None?
  {
  }

  /**
   A one-character token whose character does not appear after index `k`
   has its last occurrence at `k`.
   */
  lemma LastCharOccurrence(text: string, c: char, k: int)
    requires 0 <= k < |text| && text[k] == c && c !in text[k + 1..]
    ensures IsLastOccurrence(text, [c], k)
  {
    assert text[k..k + 1] == [c];
    forall j | k < j
      ensures !OccursAt(text, [c], j)
    {
      if j < |text| {
        assert text[j] == text[k + 1..][j - k - 1];
        assert text[j..j + 1] == [text[j]];
      }
    }
  }

  /** Only the last token counts: in "@a@b" the scanner picks index 2. */
  lemma LastTokenChosen()
    ensures LastIndexNotEscaped("@a@b", "@", "\\") == 2
  {
    var t := "@a@b";
    LastCharOccurrence(t, '@', 2);
    assert t[2..4] == "@b";
    LastIndexNotEscapedAt(t, "@", "\\", 2);
  }

  /**
   An escaped last token gives -1, with no fallback to the earlier
   unescaped token at index 0.
   */
  lemma EscapedLastTokenRejected()
    ensures LastIndexNotEscaped("@a@\\b", "@", "\\") == -1
  {
    var t := "@a@\\b";
    LastCharOccurrence(t, '@', 2);
    assert t[2..4] == "@\\";
    LastIndexNotEscapedAt(t, "@", "\\", 2);
  }

  /**
   The escape marker escapes a token only when it directly FOLLOWS it: a
   marker in front of the token does not escape it.
   */
  lemma MarkerBeforeTokenIgnored()
    ensures LastIndexNotEscaped("@a\\@b", "@", "\\") == 3
  {
    var t := "@a\\@b";
    LastCharOccurrence(t, '@', 3);
    assert t[3..5] == "@b";
    LastIndexNotEscapedAt(t, "@", "\\", 3);
  }

  /** In "@a]]" followed by a character other than ']', the end token "]]" occurs last at index 2. */
  lemma ClosingTokenAtTwo(t: string, c: char)
    requires t == "@a]]" + [c] && c != ']'
    ensures IsLastOccurrence(t, "]]", 2)
  {
    assert t[2..4] == "]]";
    forall j | 2 < j
      ensures !OccursAt(t, "]]", j)
    {
      if j == 3 {
        assert t[3..5] == [']', c];
      }
    }
  }

  /**
   Typing past a closing end token cancels the typeahead, whatever the
   `escapeToken` prop says: the end-token scan reads the misspelled
   `esacapeToken` prop and falls back to U+200B, so "]]" followed by a
   backslash still closes when `escapeToken` is a backslash.
   */
  lemma EndTokenClosesTypeahead(escapeToken: string, c: char)
    requires c != '@' && c != ']' && c != '\U{200B}'
    ensures GetTypeaheadRange(TokenProps("", "]]", escapeToken, ""), EditorSelection(true, false),
                              DomSelection(1, "@a]]" + [c], 5)).None?
  {
    var props, editor := TokenProps("", "]]", escapeToken, ""), EditorSelection(true, false);
    var t := "@a]]" + [c];
    var dom := DomSelection(1, t, 5);
    assert TextBeforeCursor(dom) == t;
    assert t[1..] == ['a', ']', ']', c];
    LastCharOccurrence(t, '@', 0);
    ClosingTokenAtTwo(t, c);
    assert t[2..5] == [']', ']', c] && ("]]" + ZeroWidthSpace)[2] != c;
    assert IsLastUnescaped(t, "]]", ZeroWidthSpace, 2);
    EndTokenCancels(props, editor, dom, 2);
  }
}
