/** Types and integer limits that several components use. */
module Common {

  type Endpoint = string

  const U16_MAX: nat := 0xFFFF
  const U64_MAX: nat := 0xFFFF_FFFF_FFFF_FFFF

  /** Some number is larger than all of the given ones. */
  lemma {:induction false} UnusedId(ids: set<nat>) returns (x: nat)
    ensures forall i :: i in ids ==> i < x
  {
    if ids == {} {
      x := 0;
    } else {
      var i :| i in ids;
      var y := UnusedId(ids - {i});
      x := if i < y then y else i + 1;
      assert forall k :: k in ids ==> k == i || k in ids - {i};
    }
  }

  function Reversed<T>(s: seq<T>): seq<T> {
    seq(|s|, i requires 0 <= i < |s| => s[|s| - 1 - i])
  }
}
