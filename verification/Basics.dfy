/** Small shared vocabulary: optional values, outcomes of calls that may raise,
    and the integer widths the wire formats use. */
module Basics {

  datatype Option<+T> = None | Some(value: T)

  /** A call that returns, or raises an exception described by `error`. */
  datatype Result<+T, +E> = Success(value: T) | Failure(error: E)

  type Byte = x: int | 0 <= x < 0x100
  type Word16 = x: int | 0 <= x < 0x1_0000

  /** There is always a text not in use. */
  lemma FreshText(used: set<string>) returns (text: string)
    ensures text !in used && text != "" && forall i :: 0 <= i < |text| ==> text[i] == 'z'
  {
    var longest := Longest(used);
    text := seq(longest + 1, _ => 'z');
    assert |text| > longest;
  }

  lemma {:induction false} Longest(used: set<string>) returns (n: nat)
    ensures forall s :: s in used ==> |s| <= n
  {
    if used == {} {
      n := 0;
    } else {
      var s :| s in used;
      var m := Longest(used - {s});
      n := if |s| > m then |s| else m;
      forall t | t in used ensures |t| <= n {
        assert t == s || t in used - {s};
      }
    }
  }
}
