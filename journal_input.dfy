/** The editing rules of components/JournalInput.native.jsx. Each handler computes the
    note that its single `setNote` call stores, and the counter figures are functions
    of the note. */
module JournalInput {
  import opened Strings

  const MaxChars: nat := 1000

  const Prompts: seq<string> := [
    "What went well today, even if it was small?",
    "What is making you feel stressed right now?",
    "What would you tell a friend who felt the way you do today?"
  ]

  /** `remaining = MAX_CHARS - length`; negative once the note is over the limit. */
  function Remaining(note: string): (r: int)
    ensures r <= MaxChars
    ensures r >= 0 <==> |note| <= MaxChars
  {
    MaxChars - |note|
  }

  /** `isNearLimit = remaining <= 100`: the counter warns exactly when the note holds
      900 characters or more. */
  predicate IsNearLimit(note: string)
    ensures IsNearLimit(note) <==> |note| >= 900
  {
    Remaining(note) <= 100
  }

  /** `handleChange(value)`: the note after an edit. A value within the limit replaces
      the note; a longer one is ignored. */
  function HandleChange(note: string, value: string): (r: string)
    ensures |value| <= MaxChars ==> r == value
    ensures |value| > MaxChars ==> r == note
    ensures |note| <= MaxChars ==> |r| <= MaxChars
  {
    if |value| <= MaxChars then value else note
  }

  /** The note after a run of edits, applied in order. */
  function AfterEdits(note: string, values: seq<string>): string
    decreases values
  {
    if values == [] then note else AfterEdits(HandleChange(note, values[0]), values[1..])
  }

  /** Edits alone never take a note over the limit. */
  lemma {:induction false} EditsKeepLimit(note: string, values: seq<string>)
    requires |note| <= MaxChars
    ensures |AfterEdits(note, values)| <= MaxChars
    decreases values
  {
    if values != [] {
      EditsKeepLimit(HandleChange(note, values[0]), values[1..]);
    }
  }

  /** After edits, the note is the last value within the limit, or the old note when no
      value was. */
  lemma {:induction false} AfterEditsIsLastAccepted(note: string, values: seq<string>)
    ensures (forall i :: 0 <= i < |values| ==> |values[i]| > MaxChars) ==> AfterEdits(note, values) == note
    ensures (exists i :: 0 <= i < |values| && |values[i]| <= MaxChars) ==>
      exists i :: 0 <= i < |values| && |values[i]| <= MaxChars && AfterEdits(note, values) == values[i] &&
                  forall k :: i < k < |values| ==> |values[k]| > MaxChars
    decreases values
  {
    if values != [] {
      var next := HandleChange(note, values[0]);
      AfterEditsIsLastAccepted(next, values[1..]);
      var rest := values[1..];
      assert forall i :: 0 <= i < |rest| ==> rest[i] == values[i + 1];
      if exists i :: 0 <= i < |rest| && |rest[i]| <= MaxChars {
        var i :| 0 <= i < |rest| && |rest[i]| <= MaxChars && AfterEdits(next, rest) == rest[i] &&
                 forall k :: i < k < |rest| ==> |rest[k]| > MaxChars;
        assert values[i + 1] == rest[i];
      } else if |values[0]| <= MaxChars {
        assert AfterEdits(note, values) == values[0];
      }
    }
  }

  /** `insertPrompt(text)`: on a blank note (one whose `trim()` is empty, see
      `BlankIsEmptyTrim`), the prompt and a space; otherwise the note without its
      trailing white space, a blank line, the prompt and a space. */
  function InsertPrompt(note: string, text: string): (r: string)
    ensures |r| == (if IsBlank(note) then 0 else |TrimEnd(note)| + 2) + |text| + 1
  {
    if IsBlank(note) then text + " " else TrimEnd(note) + "\n\n" + text + " "
  }

  /** The test `!note.trim()` is the blank test of `InsertPrompt`. */
  lemma BlankIsEmptyTrim(note: string)
    ensures Trim(note) == [] <==> IsBlank(note)
  {
    TrimEmptyIffBlank(note);
  }

  /** On a blank note, inserting a prompt replaces the note by the prompt and a space. */
  lemma InsertPromptOnBlank(note: string, text: string)
    requires IsBlank(note)
    ensures InsertPrompt(note, text) == text + " "
  {
  }

  /** On a note with writing, inserting a prompt keeps that writing first, unchanged up
      to its last character that is not white space, then a blank line, the prompt and
      a space. */
  lemma InsertPromptKeepsNote(note: string, text: string)
    requires !IsBlank(note)
    ensures var r := InsertPrompt(note, text);
      var kept := TrimEnd(note);
      kept != [] && kept == note[..|kept|] && !IsSpace(kept[|kept| - 1]) &&
      r[..|kept|] == kept && r[|kept|..] == "\n\n" + text + " "
  {
    var i :| 0 <= i < |note| && !IsSpace(note[i]);
    var kept := TrimEnd(note);
    assert kept != [];
    var r := InsertPrompt(note, text);
    assert r == kept + ("\n\n" + text + " ");
  }

  /** A prompt that starts with a visible character leaves a note that is not blank. */
  lemma InsertPromptNotBlank(note: string, text: string)
    requires text != "" && !IsSpace(text[0])
    ensures !IsBlank(InsertPrompt(note, text))
  {
    var r := InsertPrompt(note, text);
    var at := if IsBlank(note) then 0 else |TrimEnd(note)| + 2;
    if IsBlank(note) {
      assert r[0] == text[0];
    } else {
      InsertPromptKeepsNote(note, text);
      assert r[|TrimEnd(note)|..][2] == text[0];
    }
    assert r[at] == text[0];
  }

  /** Inserting a prompt applies no length check: a note at the limit goes over it. */
  lemma InsertPromptCanExceedLimit(note: string)
    requires |note| == MaxChars && forall i :: 0 <= i < |note| ==> note[i] == 'a'
    ensures |InsertPrompt(note, Prompts[0])| > MaxChars
  {
    assert !IsSpace(note[|note| - 1]);
  }
}
