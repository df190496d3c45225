/**
 The texts of the notifications ("toasts") the task list shows after each
 change: the `truncate` helper that shortens a task's text, the decimal
 rendering of a count, and the title and description of each notification.
 */
module Messages {
  import opened TaskList

  /** The default length of `truncate`. */
  const TruncateLength: nat := 30

  /** `truncate(text, length = 30)`: the first `length` characters and "...", for a longer text. */
  function Truncate(text: string, length: nat := TruncateLength): (r: string)
    ensures |r| <= length + 3
    ensures |text| <= length ==> r == text
    ensures |text| > length ==> |r| == length + 3 && r[..length] == text[..length] && r[length..] == "..."
  {
    if |text| > length then text[..length] + "..." else text
  }

  /**
   Truncating leaves a text as it is exactly when it is short enough, or when it
   is already exactly `length` characters followed by "...".
   */
  lemma TruncateUnchanged(text: string, length: nat)
    ensures Truncate(text, length) == text <==>
      |text| <= length || (|text| == length + 3 && text[length..] == "...")
  {
    if |text| == length + 3 && text[length..] == "..." {
      assert text == text[..length] + text[length..];
    }
  }

  function DigitChar(d: nat): (c: char)
    requires d < 10
    ensures '0' <= c <= '9' && (c as int) - ('0' as int) == d
  {
    ('0' as int + d) as char
  }

  /** `count.toString()` for a non-negative integer: decimal digits, no leading zero. */
  function NatToString(n: nat): (r: string)
    ensures |r| >= 1
    ensures forall i :: 0 <= i < |r| ==> '0' <= r[i] <= '9'
    ensures |r| > 1 ==> r[0] != '0'
    decreases n
  {
    if n < 10 then [DigitChar(n)] else NatToString(n / 10) + [DigitChar(n % 10)]
  }

  /** The number a string of decimal digits denotes. */
  function DecimalValue(s: string): nat
    requires forall i :: 0 <= i < |s| ==> '0' <= s[i] <= '9'
  {
    if s == [] then 0
    else 10 * DecimalValue(s[..|s| - 1]) + ((s[|s| - 1] as int) - ('0' as int))
  }

  /** Reading back the digits of a count gives the count. */
  lemma {:induction false} NatToStringRoundTrip(n: nat)
    ensures DecimalValue(NatToString(n)) == n
  {
    var r := NatToString(n);
    if n >= 10 {
      NatToStringRoundTrip(n / 10);
      assert r[..|r| - 1] == NatToString(n / 10);
    }
  }

  /** A notification: its title and its description. */
  datatype Toast = Toast(title: string, description: string)

  /** The notification after adding: the truncated text in quotes, then "agregada". */
  function AddedToast(text: string): (t: Toast)
    ensures t.title == "Tarea agregada"
    ensures |t.description| <= TruncateLength + 14
    ensures 11 <= |t.description| && t.description[1..|t.description| - 10] == Truncate(text)
    ensures |text| <= TruncateLength ==> t.description == "\"" + text + "\" agregada"
    ensures |text| > TruncateLength ==> t.description == "\"" + text[..TruncateLength] + "...\" agregada"
  {
    var d := "\"" + Truncate(text) + "\" agregada";
    assert d[1..|d| - 10] == Truncate(text);
    Toast("Tarea agregada", d)
  }

  /** The notification after a toggle names the new state and the (truncated) text. */
  function ToggledToast(t: Task): (r: Toast)
    ensures r.title == "Tarea completada" <==> t.completed
    ensures r.title == "Tarea pendiente" <==> !t.completed
    ensures |r.description| <= TruncateLength + 3
    ensures |t.text| <= TruncateLength ==> r.description == t.text
    ensures |t.text| > TruncateLength ==> r.description == t.text[..TruncateLength] + "..."
  {
    Toast(if t.completed then "Tarea completada" else "Tarea pendiente", Truncate(t.text))
  }

  const DeletedToast := Toast("Tarea eliminada", "La tarea ha sido eliminada")

  /** The notification after clearing: the count, with the noun and participle in the plural above one. */
  function ClearedToast(count: nat): (t: Toast)
    ensures t.title == "Tareas limpiadas"
    ensures count > 1 ==> t.description == NatToString(count) + " tareas eliminadas"
    ensures count <= 1 ==> t.description == NatToString(count) + " tarea eliminada"
  {
    var plural := if count > 1 then "s" else "";
    Toast("Tareas limpiadas", NatToString(count) + " tarea" + plural + " eliminada" + plural)
  }
}
