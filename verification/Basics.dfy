/** Bytes, results and the small facts about finite sets that the other modules share. */
module Basics {

  newtype byte = x: int | 0 <= x < 256

  type Bytes = seq<byte>

  datatype Option<+T> = None | Some(value: T)

  /** The error codes the modelled operations return. */
  datatype Error =
    | ErrOther | ErrParam | ErrTblSet | ErrDataType | ErrDataFormat
    | ErrNotFound | ErrSameValue | ErrTblDataMess | ErrTblEnd

  datatype Result<+T> = Ok(value: T) | Err(error: Error) {
    predicate IsFailure() {
      Err?
    }

    function PropagateFailure<U>(): Result<U>
      requires Err?
    {
      Err(error)
    }

    function Extract(): T
      requires Ok?
    {
      value
    }
  }

  function Min(a: int, b: int): int {
    if a <= b then a else b
  }

  const SLASH: byte := 47

  /** Where the last slash of a path is. */
  function LastSlash(path: Bytes): (p: Option<nat>)
    ensures p.Some? ==> p.value < |path| && path[p.value] == SLASH && SLASH !in path[p.value + 1..]
    ensures p.None? ==> SLASH !in path
  {
    if path == [] then None
    else if path[|path| - 1] == SLASH then Some(|path| - 1)
    else
      assert path == path[..|path| - 1] + [path[|path| - 1]];
      LastSlash(path[..|path| - 1])
  }

  /** The path of the child `name` of a node. */
  function PathOf(father: Bytes, name: Bytes): Bytes {
    father + [SLASH] + name
  }

  lemma {:induction false} LastSlashOfPath(father: Bytes, name: Bytes)
    requires SLASH !in name
    ensures LastSlash(PathOf(father, name)) == Some(|father|)
    decreases |name|
  {
    var path := PathOf(father, name);
    if name != [] {
      assert name == name[..|name| - 1] + [name[|name| - 1]];
      assert path[..|path| - 1] == PathOf(father, name[..|name| - 1]);
      LastSlashOfPath(father, name[..|name| - 1]);
    }
  }

  // The status of a server under a service.
  const STATUS_UP: int := 0
  const STATUS_OFFLINE: int := 1
  const STATUS_DOWN: int := 2

  /** A subset of a finite set is no larger, and is the whole set when it is as large. */
  lemma {:induction false} SubsetCard<T>(a: set<T>, b: set<T>)
    requires a <= b
    ensures |a| <= |b|
    ensures |a| == |b| ==> a == b
  {
    assert b == a + (b - a);
    assert |b| == |a| + |b - a|;
    if |a| == |b| {
      assert b - a == {};
    }
  }

  /** The indices below n. */
  ghost function Below(n: nat): (s: set<nat>)
    ensures |s| == n
    ensures forall i :: i in s <==> 0 <= i < n
  {
    if n == 0 then {} else Below(n - 1) + {n - 1}
  }
}
