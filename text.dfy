/** String helpers: Go's strings.Join and plain concatenation. */
module Text {

  /** strings.Join: the parts separated by `sep`; the empty list gives "". */
  function Join(parts: seq<string>, sep: string): string
  {
    if |parts| == 0 then ""
    else if |parts| == 1 then parts[0]
    else parts[0] + sep + Join(parts[1..], sep)
  }

  /** All the parts, one after another. */
  function Concat(parts: seq<string>): string
  {
    if parts == [] then "" else parts[0] + Concat(parts[1..])
  }

  /** With the empty separator, Join is plain concatenation. */
  lemma {:induction false} JoinWithoutSeparator(parts: seq<string>)
    ensures Join(parts, "") == Concat(parts)
  {
    if |parts| > 1 {
      JoinWithoutSeparator(parts[1..]);
    }
  }
}
