/**
 * The reprompt loops of both files: a prompt reads input lines until one of
 * them is accepted.  A line is read by a function that gives its value, or
 * `None` for a line the prompt rejects.
 */
module Prompts {
  import opened Wrappers

  /**
   * The answer of a reprompt loop: the value of the first line that `read`
   * accepts, with the number of lines read; rejected lines are skipped.
   * `None` when the lines run out.
   */
  function FirstAccepted<T(==)>(inputs: seq<string>, read: string -> Option<T>): (r: Option<(T, nat)>)
    ensures r.Some? ==> IsFirstAccepted(inputs, read, r.value.0, r.value.1)
    ensures r.None? <==> forall j :: 0 <= j < |inputs| ==> read(inputs[j]).None?
  {
    if inputs == [] then None
    else if read(inputs[0]).Some? then Some((read(inputs[0]).value, 1))
    else
      match FirstAccepted(inputs[1..], read)
      case None => None
      case Some((value, used)) =>
        assert forall j :: 1 <= j < used + 1 ==> inputs[j] == inputs[1..][j - 1];
        Some((value, used + 1))
  }

  /** Line `used - 1` is accepted with `value`, and every line before it is rejected. */
  predicate IsFirstAccepted<T(==)>(inputs: seq<string>, read: string -> Option<T>, value: T, used: nat) {
    && 0 < used <= |inputs|
    && read(inputs[used - 1]) == Some(value)
    && forall j :: 0 <= j < used - 1 ==> read(inputs[j]).None?
  }

  /** Only one line is the first accepted one: it is the one `FirstAccepted` returns. */
  lemma FirstAcceptedIs<T>(inputs: seq<string>, read: string -> Option<T>, value: T, used: nat)
    requires IsFirstAccepted(inputs, read, value, used)
    ensures FirstAccepted(inputs, read) == Some((value, used))
  {
    var r := FirstAccepted(inputs, read);
    assert read(inputs[used - 1]).Some?;
    var u := r.value.1;
    assert read(inputs[u - 1]).Some?;
  }

  /**
   * A reprompt loop: reads the lines one at a time until `read` accepts
   * one.  Returns that line's value and the number of lines read, or `None`
   * after reading every line.
   */
  method ReadUntilAccepted<T(==)>(inputs: seq<string>, read: string -> Option<T>) returns (value: Option<T>, used: nat)
    ensures value.Some? ==> FirstAccepted(inputs, read) == Some((value.value, used))
    ensures value.None? <==> FirstAccepted(inputs, read).None?
    ensures value.None? ==> used == |inputs|
  {
    used := 0;
    while used < |inputs|
      invariant used <= |inputs|
      invariant forall j :: 0 <= j < used ==> read(inputs[j]).None?
    {
      var answer := read(inputs[used]);
      used := used + 1;
      if answer.Some? {
        FirstAcceptedIs(inputs, read, answer.value, used);
        return answer, used;
      }
    }
    return None, used;
  }
}
