/** Result and option types, and the linear search every table lookup of the service is built on. */
module Common {

  datatype Option<+T> = None | Some(value: T)

  /** An error code: any value but the one that means success. */
  type ErrorCode = c: int | c != 0 witness 1

  datatype Result<+T> = Success(value: T) | Failure(code: ErrorCode)

  type int32 = x: int | -0x8000_0000 <= x <= 0x7FFF_FFFF
  type uint32 = x: int | 0 <= x <= 0xFFFF_FFFF

  const TWO_32 := 0x1_0000_0000

  /** The value a C `unsigned int` holds after being assigned the `int` x. */
  function ToUnsigned(x: int32): uint32 {
    if x < 0 then x + TWO_32 else x
  }

  /** The value a C `int` holds after an integer is reduced to 32 bits. */
  function ToInt32(x: int): int32 {
    var r := x % TWO_32;
    if r > 0x7FFF_FFFF then r - TWO_32 else r
  }

  /** Index of the first element satisfying p, or |s| when there is none. */
  function FirstIndex<T>(s: seq<T>, p: T -> bool): (i: nat)
    ensures i <= |s|
    ensures i < |s| ==> p(s[i])
    ensures forall j :: 0 <= j < i ==> !p(s[j])
  {
    if s == [] then 0
    else if p(s[0]) then 0
    else
      var k := FirstIndex(s[1..], p);
      assert forall j :: 1 <= j < k + 1 ==> s[j] == s[1..][j - 1];
      k + 1
  }
}
