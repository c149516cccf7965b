/**
 The line splitting of `java.io.BufferedReader.readLine`, restricted to text
 whose only line terminator is '\n'.
 */
module JavaIo {

  /** Position of the first '\n' in `s`, or `|s|` when there is none. */
  function NewlineIndex(s: string): (i: nat)
    ensures i <= |s|
    ensures forall k :: 0 <= k < i ==> s[k] != '\n'
    ensures i < |s| ==> s[i] == '\n'
  {
    if s == [] || s[0] == '\n' then 0 else 1 + NewlineIndex(s[1..])
  }

  /** The successive results of `readLine` on a reader over `s`, up to the
      call that returns `null`: each line loses its terminator, and a final
      line without a terminator is still returned. */
  function ReadLines(s: string): (lines: seq<string>)
    ensures forall k :: 0 <= k < |lines| ==> '\n' !in lines[k]
    ensures s == [] <==> lines == []
    decreases |s|
  {
    if s == [] then
      []
    else
      var i := NewlineIndex(s);
      if i == |s| then
        [s]
      else
        [s[..i]] + ReadLines(s[i + 1..])
  }
}
