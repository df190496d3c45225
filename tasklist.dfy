/**
 The task list of the TaskFlow application: the task record, the filters the
 application runs over the list, the lookup by id, the toggle of one record,
 the filtered views and the statistics shown above the list.

 Everything here is a value; the object that owns the list and updates it in
 place is `App.TaskManager`.
 */
module TaskList {

  datatype Option<T> = None | Some(value: T)

  /** One to-do entry. The creation timestamp is not modelled (it only feeds the date label). */
  datatype Task = Task(id: string, text: string, completed: bool)

  /** The three predicates the application passes to `filter`. */
  datatype Keep = KeepPending | KeepCompleted | KeepOtherThan(id: string)

  predicate Keeps(k: Keep, t: Task) {
    match k
    case KeepPending => !t.completed
    case KeepCompleted => t.completed
    case KeepOtherThan(id) => t.id != id
  }

  /** The tasks of `s` that pass `k`, in their original order. */
  function Filter(s: seq<Task>, k: Keep): (r: seq<Task>)
    ensures |r| <= |s|
    ensures forall t :: t in r <==> t in s && Keeps(k, t)
  {
    if s == [] then []
    else (if Keeps(k, s[0]) then [s[0]] else []) + Filter(s[1..], k)
  }

  /** Filtering distributes over concatenation: it keeps the relative order of what it keeps. */
  lemma {:induction false} FilterConcat(a: seq<Task>, b: seq<Task>, k: Keep)
    ensures Filter(a + b, k) == Filter(a, k) + Filter(b, k)
  {
    if a == [] {
      assert a + b == b;
    } else {
      assert (a + b)[1..] == a[1..] + b;
      FilterConcat(a[1..], b, k);
    }
  }

  /** A filter leaves the list as it is exactly when every task passes it. */
  lemma {:induction false} FilterUnchanged(s: seq<Task>, k: Keep)
    ensures Filter(s, k) == s <==> forall i :: 0 <= i < |s| ==> Keeps(k, s[i])
  {
    if s != [] {
      FilterUnchanged(s[1..], k);
      if Filter(s, k) == s {
        forall i | 0 <= i < |s| ensures Keeps(k, s[i]) {
          assert s[i] in Filter(s, k);
        }
      }
    }
  }

  /** A filter removes every task exactly when no task passes it. */
  lemma {:induction false} FilterEmpty(s: seq<Task>, k: Keep)
    ensures Filter(s, k) == [] <==> forall i :: 0 <= i < |s| ==> !Keeps(k, s[i])
  {
    if s != [] {
      FilterEmpty(s[1..], k);
      assert s[0] in s;
      assert forall i :: 1 <= i < |s| ==> s[i] == s[1..][i - 1];
    }
  }

  /** Splitting the list around position `i` splits its filtered list the same way. */
  lemma {:induction false} FilterAround(s: seq<Task>, i: nat, k: Keep)
    requires i < |s|
    ensures Filter(s, k) == Filter(s[..i], k) + Filter([s[i]], k) + Filter(s[i + 1..], k)
  {
    assert s == s[..i] + ([s[i]] + s[i + 1..]);
    FilterConcat(s[..i], [s[i]] + s[i + 1..], k);
    FilterConcat([s[i]], s[i + 1..], k);
  }

  /** The pending and the completed tasks together are the whole list, element for element. */
  lemma {:induction false} Partition(s: seq<Task>)
    ensures multiset(Filter(s, KeepPending)) + multiset(Filter(s, KeepCompleted)) == multiset(s)
    ensures |Filter(s, KeepPending)| + |Filter(s, KeepCompleted)| == |s|
  {
    if s != [] {
      Partition(s[1..]);
      assert s == [s[0]] + s[1..];
    }
  }

  /** `tasks.find(t => t.id === id)`, as the position of the first task with that id. */
  function FirstIndex(s: seq<Task>, id: string): (r: Option<nat>)
    ensures r.Some? ==> r.value < |s| && s[r.value].id == id
    ensures r.Some? ==> forall j :: 0 <= j < r.value ==> s[j].id != id
    ensures r.None? <==> forall j :: 0 <= j < |s| ==> s[j].id != id
  {
    if s == [] then None
    else if s[0].id == id then Some(0)
    else match FirstIndex(s[1..], id)
      case None => None
      case Some(i) => Some(i + 1)
  }

  /** Two lists with the same ids position by position find the same position. */
  lemma {:induction false} FirstIndexSameIds(a: seq<Task>, b: seq<Task>, id: string)
    requires |a| == |b|
    requires forall j :: 0 <= j < |a| ==> a[j].id == b[j].id
    ensures FirstIndex(a, id) == FirstIndex(b, id)
  {
    if a != [] {
      FirstIndexSameIds(a[1..], b[1..], id);
    }
  }

  /** The list after `task.completed = !task.completed` on the task `find` returns. */
  function Toggled(s: seq<Task>, id: string): (r: seq<Task>)
    ensures |r| == |s|
    ensures forall j :: 0 <= j < |s| ==> r[j].id == s[j].id && r[j].text == s[j].text
    ensures r == s <==> forall j :: 0 <= j < |s| ==> s[j].id != id
  {
    match FirstIndex(s, id)
    case None => s
    case Some(i) =>
      var r := s[i := s[i].(completed := !s[i].completed)];
      assert r[i] != s[i];
      r
  }

  /** Toggling flips the flag of the first task with the id and leaves every other task as it was. */
  lemma {:induction false} ToggledAt(s: seq<Task>, id: string, i: nat)
    requires FirstIndex(s, id) == Some(i)
    ensures Toggled(s, id)[i].completed == !s[i].completed
    ensures forall j :: 0 <= j < |s| && j != i ==> Toggled(s, id)[j] == s[j]
  {
  }

  /** Toggling the same id twice gives back the original list. */
  lemma {:induction false} ToggleTwice(s: seq<Task>, id: string)
    ensures Toggled(Toggled(s, id), id) == s
  {
    var r := Toggled(s, id);
    FirstIndexSameIds(r, s, id);
    match FirstIndex(s, id)
    case None =>
    case Some(i) =>
      assert r[i].completed == !s[i].completed;
      assert Toggled(r, id) == r[i := r[i].(completed := !r[i].completed)];
  }

  /** Toggling a pending task completes one more task; toggling a completed one, one fewer. */
  lemma {:induction false} ToggleCounts(s: seq<Task>, id: string, i: nat)
    requires FirstIndex(s, id) == Some(i)
    ensures !s[i].completed ==> |Filter(Toggled(s, id), KeepCompleted)| == |Filter(s, KeepCompleted)| + 1
    ensures s[i].completed ==> |Filter(Toggled(s, id), KeepCompleted)| + 1 == |Filter(s, KeepCompleted)|
  {
    var r := Toggled(s, id);
    FilterAround(s, i, KeepCompleted);
    FilterAround(r, i, KeepCompleted);
    assert r[..i] == s[..i];
    assert r[i + 1..] == s[i + 1..];
  }

  /** Deleting by id: nothing is removed when no task has the id. */
  lemma {:induction false} DeleteAbsent(s: seq<Task>, id: string)
    requires forall j :: 0 <= j < |s| ==> s[j].id != id
    ensures Filter(s, KeepOtherThan(id)) == s
  {
    FilterUnchanged(s, KeepOtherThan(id));
  }

  /** Deleting by id removes exactly the one task that carries it, when only one does. */
  lemma {:induction false} DeleteUnique(s: seq<Task>, id: string, i: nat)
    requires i < |s| && s[i].id == id
    requires forall j :: 0 <= j < |s| && j != i ==> s[j].id != id
    ensures Filter(s, KeepOtherThan(id)) == s[..i] + s[i + 1..]
  {
    var k := KeepOtherThan(id);
    FilterAround(s, i, k);
    FilterUnchanged(s[..i], k);
    FilterUnchanged(s[i + 1..], k);
  }

  /** Clearing the completed tasks changes nothing when none is completed. */
  lemma {:induction false} ClearNoneCompleted(s: seq<Task>)
    requires forall j :: 0 <= j < |s| ==> !s[j].completed
    ensures Filter(s, KeepPending) == s
  {
    FilterUnchanged(s, KeepPending);
  }

  /** `getFilteredTasks`: the list the current filter shows. */
  function FilteredView(s: seq<Task>, filter: string): (r: seq<Task>)
    ensures filter == "pending" ==> forall t :: t in r <==> t in s && !t.completed
    ensures filter == "completed" ==> forall t :: t in r <==> t in s && t.completed
    ensures filter != "pending" && filter != "completed" ==> r == s
    ensures filter == "pending" ==> r == Filter(s, KeepPending)
    ensures filter == "completed" ==> r == Filter(s, KeepCompleted)
    ensures multiset(r) <= multiset(s)
  {
    Partition(s);
    match filter
    case "pending" => Filter(s, KeepPending)
    case "completed" => Filter(s, KeepCompleted)
    case _ => s
  }

  /** The `pending` and `completed` views together are as long as the `all` view. */
  lemma {:induction false} ViewsPartition(s: seq<Task>)
    ensures |FilteredView(s, "pending")| + |FilteredView(s, "completed")| == |FilteredView(s, "all")|
  {
    Partition(s);
  }

  /** The counts next to the three filter buttons. */
  datatype Badges = Badges(all: nat, pending: nat, completed: nat)

  /** `updateFilters`: each badge counts what its filter shows. */
  function FilterBadges(s: seq<Task>): (b: Badges)
    ensures b.all == |FilteredView(s, "all")|
    ensures b.pending == |FilteredView(s, "pending")|
    ensures b.completed == |FilteredView(s, "completed")|
  {
    var completed := |Filter(s, KeepCompleted)|;
    Partition(s);
    Badges(|s|, |s| - completed, completed)
  }

  /** The statistics panel: counts and the rounded completion percentage. */
  datatype Stats = Stats(total: nat, pending: nat, completed: nat, percentage: nat)

  /**
   `Math.round(completed / total * 100)`, or 0 for an empty list, on exact
   rationals: the nearest integer, with halves rounded up.
   */
  function Percentage(completed: nat, total: nat): (p: nat)
    ensures total == 0 ==> p == 0
    ensures total > 0 ==> p * (2 * total) <= 200 * completed + total < (p + 1) * (2 * total)
  {
    if total == 0 then 0
    else
      var n, d := 200 * completed + total, 2 * total;
      var p := n / d;
      assert n == p * d + n % d;
      p
  }

  /** Cancelling a positive factor from a strict inequality. */
  lemma {:induction false} MulCancel(a: int, b: int, d: int)
    requires d > 0 && a * d < b * d
    ensures a < b
  {
  }

  /** No completion gives 0 %, full completion 100 %, and the figure never exceeds 100. */
  lemma {:induction false} PercentageBounds(completed: nat, total: nat)
    requires completed <= total
    ensures Percentage(completed, total) <= 100
    ensures completed == 0 ==> Percentage(completed, total) == 0
    ensures 0 < total == completed ==> Percentage(completed, total) == 100
  {
    var p, d := Percentage(completed, total), 2 * total;
    if total > 0 {
      assert p * d < 101 * d;
      MulCancel(p, 101, d);
      if completed == 0 {
        assert p * d < 1 * d;
        MulCancel(p, 1, d);
      }
      if completed == total {
        assert 100 * d < (p + 1) * d;
        MulCancel(100, p + 1, d);
      }
    }
  }

  /** More completed tasks never lower the percentage. */
  lemma {:induction false} PercentageMonotone(c1: nat, c2: nat, total: nat)
    requires c1 <= c2
    ensures Percentage(c1, total) <= Percentage(c2, total)
  {
    var p1, p2, d := Percentage(c1, total), Percentage(c2, total), 2 * total;
    if total > 0 {
      assert p1 * d < (p2 + 1) * d;
      MulCancel(p1, p2 + 1, d);
    }
  }

  /** With fewer than 200 tasks, 100 % is shown only when every task is completed. */
  lemma {:induction false} PercentageFullOnlyIfAllDone(completed: nat, total: nat)
    requires completed <= total < 200
    requires Percentage(completed, total) == 100
    ensures completed == total
  {
    assert 100 * (2 * total) <= 200 * completed + total;
  }

  /** From 200 tasks on, rounding reaches 100 % with one task still pending. */
  lemma {:induction false} PercentageFullWithPending(total: nat)
    requires total >= 200
    ensures Percentage(total - 1, total) == 100
  {
    var d := 2 * total;
    assert 100 * d <= 200 * (total - 1) + total;
    assert 200 * (total - 1) + total < 101 * d;
    var p := Percentage(total - 1, total);
    MulCancel(p, 101, d);
    MulCancel(100, p + 1, d);
  }

  /** `updateStats`. */
  function Statistics(s: seq<Task>): (r: Stats)
    ensures r.total == |s|
    ensures r.completed == |Filter(s, KeepCompleted)|
    ensures r.pending == |Filter(s, KeepPending)|
    ensures r.pending + r.completed == r.total
    ensures r.percentage == Percentage(r.completed, r.total)
    ensures r.percentage <= 100
    ensures r.completed == 0 ==> r.percentage == 0
    ensures r.total > 0 && r.pending == 0 ==> r.percentage == 100
  {
    var completed := |Filter(s, KeepCompleted)|;
    var total := |s|;
    Partition(s);
    PercentageBounds(completed, total);
    Stats(total, total - completed, completed, Percentage(completed, total))
  }

  /** Adding a pending task adds one to the total and to the pending count. */
  lemma {:induction false} AddStats(s: seq<Task>, t: Task)
    requires !t.completed
    ensures Statistics([t] + s).total == Statistics(s).total + 1
    ensures Statistics([t] + s).pending == Statistics(s).pending + 1
    ensures Statistics([t] + s).completed == Statistics(s).completed
  {
    FilterConcat([t], s, KeepCompleted);
  }

  /** After clearing, nothing is completed and every pending task remains. */
  lemma {:induction false} ClearStats(s: seq<Task>)
    ensures Statistics(Filter(s, KeepPending)).completed == 0
    ensures Statistics(Filter(s, KeepPending)).total == Statistics(s).pending
  {
    var r := Filter(s, KeepPending);
    forall i | 0 <= i < |r| ensures !Keeps(KeepCompleted, r[i]) {
      assert r[i] in r;
    }
    FilterEmpty(r, KeepCompleted);
  }
}
