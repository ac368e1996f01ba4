/**
 * The line motions of src/Motions/Line.ts.
 *
 * `MotionLine.firstNonBlank()` builds a motion that, once the base motion has
 * produced a position, keeps that position's line and moves to the first
 * non-blank column of the line: the length of the run of whitespace the
 * line's text starts with (the regular expression `/^\s+/`). `start()` and
 * `end()` only ask the base motion for a column translation. The base motion
 * is not part of this model: its result is the input position of `Apply`, and
 * the editor's text of that line is an optional parameter (absent when there
 * is no active editor).
 */
module LineMotions {
  import opened Options

  /** A zero-based line and character offset in a document. */
  datatype Position = Position(line: nat, character: nat)

  /** The column translation a factory asks of the base motion: none, to minus or to plus infinity. */
  datatype ColumnTranslation = Untranslated | ToLineStart | ToLineEnd

  datatype MotionLine = MotionLine(shouldToFirstNonBlank: bool, translation: ColumnTranslation)

  /** `MotionLine.firstNonBlank()`. */
  function FirstNonBlank(): (m: MotionLine)
    ensures m.shouldToFirstNonBlank && m.translation == Untranslated
  {
    MotionLine(true, Untranslated)
  }

  /** `MotionLine.start()`. */
  function Start(): (m: MotionLine)
    ensures !m.shouldToFirstNonBlank && m.translation == ToLineStart
  {
    MotionLine(false, ToLineStart)
  }

  /** `MotionLine.end()`. */
  function End(): (m: MotionLine)
    ensures !m.shouldToFirstNonBlank && m.translation == ToLineEnd
  {
    MotionLine(false, ToLineEnd)
  }

  /**
   * The JavaScript regular-expression class `\s`: the ECMAScript WhiteSpace and
   * LineTerminator code points.
   */
  predicate IsWhitespace(c: char)
  {
    || c == '\t' || c == '\n' || c == '\U{B}' || c == '\U{C}' || c == '\r' || c == ' '
    || c == '\U{A0}' || c == '\U{1680}' || ('\U{2000}' <= c <= '\U{200A}')
    || c == '\U{2028}' || c == '\U{2029}' || c == '\U{202F}' || c == '\U{205F}'
    || c == '\U{3000}' || c == '\U{FEFF}'
  }

  /** The length of the whitespace run `text` starts with. */
  function LeadingWhitespace(text: string): (n: nat)
    ensures n <= |text|
    ensures forall i :: 0 <= i < n ==> IsWhitespace(text[i])
    ensures n < |text| ==> !IsWhitespace(text[n])
  {
    if text == [] || !IsWhitespace(text[0]) then 0 else 1 + LeadingWhitespace(text[1..])
  }

  /** `text.match(/^\s+/)`: the longest non-empty whitespace prefix of `text`, or no match. */
  function MatchLeadingBlanks(text: string): (r: Option<string>)
    ensures r.None? <==> text == [] || !IsWhitespace(text[0])
    ensures r.Some? ==> 0 < |r.value| && r.value <= text
    ensures r.Some? ==> forall c :: c in r.value ==> IsWhitespace(c)
    ensures r.Some? ==> |r.value| == |text| || !IsWhitespace(text[|r.value|])
  {
    var n := LeadingWhitespace(text);
    if n == 0 then None else Some(text[..n])
  }

  /**
   * `MotionLine.apply`, given the position `from` that the base motion produced
   * and the text of `from`'s line when there is an active editor.
   */
  function Apply(m: MotionLine, from: Position, lineText: Option<string>): (r: Position)
    ensures r.line == from.line
    ensures lineText.None? || !m.shouldToFirstNonBlank ==> r == from
    ensures lineText.Some? && m.shouldToFirstNonBlank ==>
              && r.character <= |lineText.value|
              && (forall i :: 0 <= i < r.character ==> IsWhitespace(lineText.value[i]))
              && (r.character < |lineText.value| ==> !IsWhitespace(lineText.value[r.character]))
    ensures lineText.Some? && m.shouldToFirstNonBlank ==>
              (lineText.value == [] || !IsWhitespace(lineText.value[0]) ==> r.character == 0)
    ensures lineText.Some? && m.shouldToFirstNonBlank ==>
              ((forall c :: c in lineText.value ==> IsWhitespace(c)) ==> r.character == |lineText.value|)
  {
    if lineText.None? || !m.shouldToFirstNonBlank then from
    else
      var matches := MatchLeadingBlanks(lineText.value);
      var toCharacter := if matches.Some? then |matches.value| else 0;
      from.(character := toCharacter)
  }

  /**
   * The column `Apply` moves to is the one and only column that has whitespace
   * before it and no whitespace at it: the first non-blank character, or the
   * line's end when the line is blank.
   */
  lemma FirstNonBlankIsUnique(from: Position, text: string, n: nat)
    ensures var r := Apply(FirstNonBlank(), from, Some(text));
            r.character == n <==>
              && n <= |text|
              && (forall i :: 0 <= i < n ==> IsWhitespace(text[i]))
              && (n < |text| ==> !IsWhitespace(text[n]))
  {
  }
}
