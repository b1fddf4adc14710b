/** Success/failure outcome, used in place of the exceptions the system throws. */
module Results {

  datatype Result<+T, +E> = Success(value: T) | Failure(error: E)

  /**
   * Applies `f` to every element in order and collects the results; the
   * first failure aborts the whole list, as an exception thrown while a
   * query is materialised does, and is the one reported.
   */
  function MapAll<A, B, E>(f: A -> Result<B, E>, xs: seq<A>): (r: Result<seq<B>, E>)
    ensures r.Success? <==> forall i | 0 <= i < |xs| :: f(xs[i]).Success?
    ensures r.Failure? ==> exists i | 0 <= i < |xs| ::
      f(xs[i]) == Failure(r.error) && forall j | 0 <= j < i :: f(xs[j]).Success?
    ensures r.Success? ==> |r.value| == |xs| && forall i | 0 <= i < |xs| :: f(xs[i]) == Success(r.value[i])
  {
    if |xs| == 0 then Success([])
    else
      var first := f(xs[0]);
      var rest := MapAll(f, xs[1..]);
      assert forall i | 1 <= i < |xs| :: xs[i] == xs[1..][i - 1];
      if first.Failure? then Failure(first.error)
      else if rest.Failure? then
        assert exists i | 0 <= i < |xs| ::
          f(xs[i]) == Failure(rest.error) && forall j | 0 <= j < i :: f(xs[j]).Success? by {
          var k :| 0 <= k < |xs| - 1 && f(xs[1..][k]) == Failure(rest.error)
            && forall j | 0 <= j < k :: f(xs[1..][j]).Success?;
          assert f(xs[k + 1]) == Failure(rest.error);
        }
        Failure(rest.error)
      else
        var all := [first.value] + rest.value;
        assert forall i | 1 <= i < |xs| :: all[i] == rest.value[i - 1];
        Success(all)
  }
}
