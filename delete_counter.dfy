/** The optimistic delete counter: a committed `actualCount`, an optimistic
    count shown through a replace-reducer, and the click / request / commit
    or reset sequence of `deleteProductHandler`. */
module DeleteCounter {

  /** The `useOptimistic` reducer `(_currentCount, value) => value`. */
  function ReplaceCount(currentCount: int, value: int): (r: int)
    ensures r == value
  {
    value
  }

  /** What `useOptimistic` shows: the pending values folded through the
      reducer from the committed count. Since the reducer replaces, the last
      pending value wins and the committed count shows only when nothing is
      pending. */
  function ShownCount(actualCount: int, pending: seq<int>): (shown: int)
    ensures pending == [] ==> shown == actualCount
    ensures pending != [] ==> shown == pending[|pending| - 1]
    decreases |pending|
  {
    if pending == [] then actualCount else ShownCount(ReplaceCount(actualCount, pending[0]), pending[1..])
  }

  /** Where the one pending delete stands: the count it shows and the
      `actualCount` its handler read when it started. */
  datatype DeletePhase =
    | Idle
    | Awaiting(newCount: int, actualAtStart: int)
    | Resolved(newCount: int, actualAtStart: int, succeeded: bool)

  /** The state slots of the delete page. */
  class DeletePage {
    var actualCount: int
    var optimisticValues: seq<int>
    var phase: DeletePhase

    ghost predicate Valid()
      reads this
    {
      match phase
      case Idle => optimisticValues == []
      case Awaiting(n, a) => n == a + 1 && actualCount == a && optimisticValues == [n]
      case Resolved(n, a, ok) =>
        n == a + 1 &&
        if ok then actualCount == n && optimisticValues == [n]
        else actualCount == a && optimisticValues == [n, a]
    }

    /** `isPending` of the page's transition. When nothing is pending the
        page shows exactly the committed count. */
    predicate IsPending()
      reads this
      ensures Valid() && !IsPending() ==> OptimisticDeleteCount() == actualCount
    {
      !phase.Idle?
    }

    /** `optimisticDeleteCount`: the last value issued in the pending
        transition, or the committed count when none is pending. */
    function OptimisticDeleteCount(): (shown: int)
      reads this
      ensures optimisticValues == [] ==> shown == actualCount
      ensures optimisticValues != [] ==> shown == optimisticValues[|optimisticValues| - 1]
    {
      ShownCount(actualCount, optimisticValues)
    }

    /** The page as first rendered: `useState(0)`, nothing pending. */
    constructor ()
      ensures Valid() && !IsPending()
      ensures actualCount == 0 && OptimisticDeleteCount() == actualCount
    {
      actualCount := 0;
      optimisticValues := [];
      phase := Idle;
    }

    /** A click on the delete button: `newCount` is one more than the shown
        count and is shown at once, before the request completes. */
    method Click() returns (newCount: int)
      requires Valid() && !IsPending()
      modifies this
      ensures Valid() && phase == Awaiting(newCount, actualCount)
      ensures newCount == old(OptimisticDeleteCount()) + 1
      ensures newCount == old(actualCount) + 1
      ensures OptimisticDeleteCount() == newCount
      ensures actualCount == old(actualCount)
    {
      newCount := OptimisticDeleteCount() + 1;
      optimisticValues := optimisticValues + [newCount];
      phase := Awaiting(newCount, actualCount);
    }

    /** The DELETE request settles. On success `actualCount` becomes the count
        that was shown; on failure the shown count goes back to the
        `actualCount` read when the handler started, which is unchanged. */
    method Resolve(requestSucceeded: bool)
      requires Valid() && phase.Awaiting?
      modifies this
      ensures Valid()
      ensures phase == Resolved(old(phase).newCount, old(phase).actualAtStart, requestSucceeded)
      ensures requestSucceeded ==> actualCount == old(phase).newCount == old(actualCount) + 1
      ensures requestSucceeded ==> OptimisticDeleteCount() == old(OptimisticDeleteCount())
      ensures !requestSucceeded ==> actualCount == old(actualCount)
      ensures !requestSucceeded ==> OptimisticDeleteCount() == old(phase).actualAtStart
    {
      var n, a := phase.newCount, phase.actualAtStart;
      if requestSucceeded {
        actualCount := n;
      } else {
        optimisticValues := optimisticValues + [a];
      }
      phase := Resolved(n, a, requestSucceeded);
    }

    /** The transition ends: React drops the optimistic values and the page
        shows the committed count. */
    method Settle()
      requires Valid() && phase.Resolved?
      modifies this
      ensures Valid() && phase == Idle
      ensures actualCount == old(actualCount)
      ensures OptimisticDeleteCount() == actualCount
    {
      optimisticValues := [];
      phase := Idle;
    }

    /** One whole `deleteProductHandler` run with the request outcome given:
        a successful delete raises the count by exactly one, a failed one
        leaves it as it was. */
    method DeleteProduct(requestSucceeded: bool)
      requires Valid() && !IsPending()
      modifies this
      ensures Valid() && !IsPending()
      ensures actualCount == old(actualCount) + (if requestSucceeded then 1 else 0)
      ensures OptimisticDeleteCount() == actualCount
    {
      var _ := Click();
      Resolve(requestSucceeded);
      Settle();
    }
  }
}
