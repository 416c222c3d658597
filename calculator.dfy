/**
 * The calculator page (src/pages/Calculator.tsx): a display line `input` and a result line
 * `result`, changed by one handler per button press. The expression evaluator is a parameter:
 * it either throws, gives a value that is NaN or infinite, or gives a finite value whose string
 * form is shown.
 */
module Calculator {

  /** Text that is never empty: the string form of a finite number. */
  type NonEmptyString = s: string | s != [] witness "0"

  /** What evaluating the typed expression gives. */
  datatype Evaluation = Threw | NonFinite | Finite(shown: NonEmptyString)

  /** The page's two state variables. */
  datatype State = State(input: string, result: string)

  /** The state the page starts in and the `C` button returns to. */
  const Initial := State("0", "")

  const ClearKey := "C"
  const EqualsKey := "="
  const BackspaceKey := "\U{232B}"
  const PointKey := "."

  /** The text shown when evaluation fails. */
  const ErrorText := "Error"

  /** A key that types itself onto the display: anything but `C`, `=` and backspace. */
  predicate IsTypingKey(key: string) {
    key != ClearKey && key != EqualsKey && key != BackspaceKey
  }

  /** Typing `key`: it replaces a lone `0` unless it is the decimal point, else it is appended. */
  function TypeKey(input: string, key: string): string {
    if input == "0" && key != PointKey then key else input + key
  }

  /** Backspace: the last character goes, but a single character becomes `0`. */
  function DropLast(input: string): string {
    if |input| > 1 then input[..|input| - 1] else "0"
  }

  /** The state after `=`: the value's string on both lines, or `Error` and a reset display. */
  function Evaluated(s: State, evaluate: string -> Evaluation): State {
    match evaluate(s.input)
    case Finite(shown) => State(shown, shown)
    case _ => State("0", ErrorText)
  }

  /** The state after pressing `key`. */
  function Press(s: State, key: string, evaluate: string -> Evaluation): State {
    if key == ClearKey then Initial
    else if key == EqualsKey then Evaluated(s, evaluate)
    else if key == BackspaceKey then State(DropLast(s.input), s.result)
    else State(TypeKey(s.input, key), s.result)
  }

  /**
   * What one press does: `C` restores the starting state; `=` shows the value on both lines when
   * it is finite and otherwise shows `Error` with the display reset to `0`; every other key
   * leaves the result line as it was; and, as the buttons all carry a label, the display is
   * never left empty.
   */
  lemma PressSpec(s: State, key: string, evaluate: string -> Evaluation)
    ensures key == ClearKey ==> Press(s, key, evaluate) == Initial
    ensures key == EqualsKey && evaluate(s.input).Finite? ==>
              Press(s, key, evaluate).input == Press(s, key, evaluate).result == evaluate(s.input).shown
    ensures key == EqualsKey && !evaluate(s.input).Finite? ==> Press(s, key, evaluate) == State("0", ErrorText)
    ensures key != ClearKey && key != EqualsKey ==> Press(s, key, evaluate).result == s.result
    ensures Press(s, key, evaluate).result != s.result ==> key == ClearKey || key == EqualsKey
    ensures s.input != [] && key != [] ==> Press(s, key, evaluate).input != []
  {
  }

  /** Backspace right after typing one character gives back the display as it was. */
  lemma BackspaceUndoesTyping(input: string, c: char)
    requires input != [] && IsTypingKey([c])
    ensures DropLast(TypeKey(input, [c])) == input
  {
    if input == "0" && [c] != PointKey {
    } else {
      assert (input + [c])[..|input|] == input;
    }
  }

  // ---------------------------------------------------------------- typing from a cleared display

  /** `t` without its leading zeros. */
  function DropZeros(t: string): (r: string)
    ensures r == [] || r[0] != '0'
    ensures |r| <= |t|
  {
    if t != [] && t[0] == '0' then DropZeros(t[1..]) else t
  }

  /** A zero-stripped text as displayed: a `0` goes back in front when it is empty or starts with the point. */
  function Shown(z: string): (r: string)
    ensures r != []
  {
    if z == [] || z[0] == '.' then "0" + z else z
  }

  /**
   * What a cleared calculator shows after a run of typed characters `keys`: the text `0` +
   * `keys` with its leading zeros removed, and a single `0` put back when nothing is left or the
   * text would start with the decimal point.
   */
  function Displayed(keys: string): (r: string)
    ensures r != []
  {
    Shown(DropZeros("0" + keys))
  }

  /** Pressing each character of `keys` in turn, as a one-character key. */
  function PressAll(s: State, keys: string, evaluate: string -> Evaluation): State
    decreases |keys|
  {
    if keys == [] then s
    else Press(PressAll(s, keys[..|keys| - 1], evaluate), [keys[|keys| - 1]], evaluate)
  }

  /** Zero-stripped text after one more character. */
  function StripStep(z: string, k: char): string {
    if z == [] then (if k == '0' then [] else [k]) else z + [k]
  }

  /** Removing leading zeros from `t + [k]`. */
  lemma {:induction false} DropZerosAppend(t: string, k: char)
    ensures DropZeros(t + [k]) == StripStep(DropZeros(t), k)
    decreases |t|
  {
    if t != [] && t[0] == '0' {
      assert (t + [k])[1..] == t[1..] + [k];
      DropZerosAppend(t[1..], k);
    } else if t == [] {
      assert t + [k] == [k];
    }
  }

  /** Typing `k` on what is displayed for `z` displays what is shown for `z` with `k` added. */
  lemma ShownStep(z: string, k: char)
    requires z == [] || z[0] != '0'
    ensures Shown(StripStep(z, k)) == TypeKey(Shown(z), [k])
  {
    if z == [] {
      assert Shown(z) == "0";
    } else if z[0] == '.' {
      assert Shown(z) == "0" + z;
      assert |Shown(z)| > 1;
      assert "0" + (z + [k]) == ("0" + z) + [k];
    } else {
      assert Shown(z) == z && z != "0";
      assert (z + [k])[0] == z[0];
    }
  }

  /** One typed character moves the display from `Displayed(keys)` to `Displayed(keys + [k])`. */
  lemma DisplayedStep(keys: string, k: char)
    ensures Displayed(keys + [k]) == TypeKey(Displayed(keys), [k])
  {
    var t := "0" + keys;
    assert "0" + (keys + [k]) == t + [k];
    DropZerosAppend(t, k);
    ShownStep(DropZeros(t), k);
  }

  /**
   * Typing only digits, operators and points into a cleared calculator shows the typed text
   * with no redundant leading zero: the leading-zero rule and the decimal-point exception
   * together, over any number of presses. The result line stays empty.
   */
  lemma {:induction false} TypingFromCleared(keys: string, evaluate: string -> Evaluation)
    requires forall i :: 0 <= i < |keys| ==> IsTypingKey([keys[i]])
    ensures PressAll(Initial, keys, evaluate) == State(Displayed(keys), "")
    decreases |keys|
  {
    if keys == [] {
      assert DropZeros("0") == [];
    } else {
      var front := keys[..|keys| - 1];
      var k := keys[|keys| - 1];
      TypingFromCleared(front, evaluate);
      assert front + [k] == keys;
      DisplayedStep(front, k);
    }
  }

  /** The page component. */
  class Page {
    var input: string
    var result: string

    /** The display line is never empty. */
    predicate Valid()
      reads this
    {
      input != []
    }

    /** The current state as a value. */
    function Current(): State
      reads this
    {
      State(input, result)
    }

    constructor ()
      ensures Valid()
      ensures Current() == Initial
    {
      input := "0";
      result := "";
    }

    /** `C`: back to the starting state. */
    method Clear()
      modifies this
      ensures Valid()
      ensures Current() == Initial
    {
      input := "0";
      result := "";
    }

    /** `=`: evaluate the display and show the outcome. */
    method Equals(evaluate: string -> Evaluation)
      modifies this
      ensures Valid()
      ensures Current() == Evaluated(old(Current()), evaluate)
    {
      var calculated := evaluate(input);
      match calculated
      case Finite(finalResult) =>
        result := finalResult;
        input := finalResult;
      case _ =>
        result := ErrorText;
        input := "0";
    }

    /** Backspace: drop the last character of the display. */
    method Backspace()
      modifies this
      ensures Valid()
      ensures Current() == State(DropLast(old(input)), old(result))
    {
      input := if |input| > 1 then input[..|input| - 1] else "0";
    }

    /** A digit, operator or point. */
    method Type(key: string)
      requires Valid() && key != []
      modifies this
      ensures Valid()
      ensures Current() == State(TypeKey(old(input), key), old(result))
    {
      if input == "0" && key != PointKey {
        input := key;
      } else {
        input := input + key;
      }
    }

    /** `handleButtonClick`: dispatch on the pressed button's label. */
    method HandleButtonClick(value: string, evaluate: string -> Evaluation)
      requires Valid() && value != []
      modifies this
      ensures Valid()
      ensures Current() == Press(old(Current()), value, evaluate)
    {
      if value == ClearKey {
        Clear();
      } else if value == EqualsKey {
        Equals(evaluate);
      } else if value == BackspaceKey {
        Backspace();
      } else {
        Type(value);
      }
    }
  }
}
