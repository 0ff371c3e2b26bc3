/** Machine integers, option and result types, and extrema of finite sets, shared by every module. */
module Common {

  const TWO32: int := 0x1_0000_0000

  type Byte = b: int | 0 <= b < 256
  type Bytes = seq<Byte>
  type U32 = n: int | 0 <= n < TWO32

  datatype Option<+T> = None | Some(value: T)

  datatype Result<+T> = Ok(value: T) | Err(message: string)

  /** The conversion `uint32(n)`: truncation to the low 32 bits. */
  function Trunc32(n: int): U32 {
    n % TWO32
  }

  lemma MaxExists(s: set<nat>)
    requires s != {}
    ensures exists m :: m in s && forall x | x in s :: x <= m
  {
    var x :| x in s;
    if s != {x} {
      MaxExists(s - {x});
      var m :| m in s - {x} && forall y | y in s - {x} :: y <= m;
      assert forall y | y in s :: y == x || y in s - {x};
      var k := if x <= m then m else x;
      assert k in s && forall y | y in s :: y <= k;
    }
  }

  /** `SELECT MAX(id)` over a nonempty set of row ids. */
  function Max(s: set<nat>): (m: nat)
    requires s != {}
    ensures m in s
    ensures forall x | x in s :: x <= m
  {
    MaxExists(s);
    var m :| m in s && forall x | x in s :: x <= m;
    m
  }

  lemma MinExists(s: set<nat>)
    requires s != {}
    ensures exists m :: m in s && forall x | x in s :: m <= x
  {
    var x :| x in s;
    if s != {x} {
      MinExists(s - {x});
      var m :| m in s - {x} && forall y | y in s - {x} :: m <= y;
      assert forall y | y in s :: y == x || y in s - {x};
      var k := if x <= m then x else m;
      assert k in s && forall y | y in s :: k <= y;
    }
  }

  function Min(s: set<nat>): (m: nat)
    requires s != {}
    ensures m in s
    ensures forall x | x in s :: m <= x
  {
    MinExists(s);
    var m :| m in s && forall x | x in s :: m <= x;
    m
  }

  /** A prefix in front of a sequence, if there is one. */
  function Prepend<T>(front: seq<T>, r: Option<seq<T>>): Option<seq<T>> {
    match r
    case None => None
    case Some(s) => Some(front + s)
  }

  lemma PrependAppend<T>(front: seq<T>, more: seq<T>, r: Option<seq<T>>)
    ensures Prepend(front, Prepend(more, r)) == Prepend(front + more, r)
    ensures Prepend([], r) == r
  {
    if r.Some? {
      assert front + (more + r.value) == front + more + r.value;
      assert [] + r.value == r.value;
    }
  }

  lemma PrependNone<T(!new)>()
    ensures forall front: seq<T> :: Prepend(front, None) == None
  {
  }
}
