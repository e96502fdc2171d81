/** Option and Result values, and the Python exceptions the timetable code can raise. */
module Outcomes {

  datatype Option<T> = None | Some(value: T)

  datatype Result<T, E> = Ok(value: T) | Failure(error: E)

  /** The exceptions raised by the modelled code on inputs it does not guard against. */
  datatype Fault =
    | IndexError          // `row[idx + 1]` past the end of a row
    | AttributeError      // `.strip()` called on a truthy cell that is not a string
    | KeyError(key: int)  // a missing key of a time table

  /** Concatenation of two partial lists of results: the first failure wins, as the
      first exception raised aborts a Python loop that appends to a list. */
  function Append<T>(a: Result<seq<T>, Fault>, b: Result<seq<T>, Fault>): (r: Result<seq<T>, Fault>)
    ensures r.Ok? <==> a.Ok? && b.Ok?
    ensures r.Ok? ==> r.value == a.value + b.value
    ensures a.Failure? ==> r == a
    ensures a.Ok? && b.Failure? ==> r == b
  {
    if a.Failure? then a
    else if b.Failure? then b
    else Ok(a.value + b.value)
  }

  /** `Append` is associative. */
  lemma AppendAssoc<T>(x: Result<seq<T>, Fault>, y: Result<seq<T>, Fault>, z: Result<seq<T>, Fault>)
    ensures Append(Append(x, y), z) == Append(x, Append(y, z))
  {
    if x.Ok? && y.Ok? && z.Ok? {
      assert (x.value + y.value) + z.value == x.value + (y.value + z.value);
    }
  }

  /** An empty first part adds nothing. */
  lemma AppendEmpty<T>(x: Result<seq<T>, Fault>)
    ensures Append(Ok([]), x) == x
  {
    if x.Ok? {
      assert [] + x.value == x.value;
    }
  }

  /** The results of a loop over `rs[i..]` that collects each value and stops at
      the first exception. */
  function Collect<T>(rs: seq<Result<T, Fault>>, i: nat): Result<seq<T>, Fault>
    requires i <= |rs|
    decreases |rs| - i
  {
    if i == |rs| then Ok([])
    else match rs[i]
      case Failure(e) => Failure(e)
      case Ok(x) => Append(Ok([x]), Collect(rs, i + 1))
  }

  /** `Collect` fails exactly when some remaining step fails, with the exception
      of the first such step; otherwise it holds every remaining value, in order. */
  lemma {:induction false} CollectSpec<T>(rs: seq<Result<T, Fault>>, i: nat)
    requires i <= |rs|
    ensures Collect(rs, i).Failure? <==> exists k :: i <= k < |rs| && rs[k].Failure?
    ensures Collect(rs, i).Failure? ==>
      exists k :: i <= k < |rs| && rs[k] == Failure(Collect(rs, i).error) && (forall j :: i <= j < k ==> rs[j].Ok?)
    ensures Collect(rs, i).Ok? ==>
      |Collect(rs, i).value| == |rs| - i &&
      forall k :: i <= k < |rs| ==> rs[k] == Ok(Collect(rs, i).value[k - i])
    decreases |rs| - i
  {
    if i < |rs| {
      CollectSpec(rs, i + 1);
      if rs[i].Ok? && Collect(rs, i + 1).Failure? {
        var k :| i + 1 <= k < |rs| && rs[k] == Failure(Collect(rs, i + 1).error) && (forall j :: i + 1 <= j < k ==> rs[j].Ok?);
        assert rs[k] == Failure(Collect(rs, i).error);
      }
      if Collect(rs, i).Ok? {
        var rest := Collect(rs, i + 1).value;
        var r := Collect(rs, i).value;
        assert r == [rs[i].value] + rest;
        forall k | i < k < |rs| ensures rs[k] == Ok(r[k - i]) {
          assert r[k - i] == rest[k - (i + 1)];
        }
      }
    }
  }

  /** One step of such a loop: a value moves from the work still to do to the
      values done so far; an exception ends the loop. */
  lemma NextResult<T>(rs: seq<Result<T, Fault>>, i: nat, done: seq<T>)
    requires i < |rs|
    ensures Append(Ok(done), Collect(rs, i))
      == if rs[i].Ok? then Append(Ok(done + [rs[i].value]), Collect(rs, i + 1)) else Failure(rs[i].error)
  {
    if rs[i].Ok? {
      AppendAssoc(Ok(done), Ok([rs[i].value]), Collect(rs, i + 1));
    }
  }
}
