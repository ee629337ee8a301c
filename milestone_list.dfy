/**
 * The milestone list of a goal page: the milestones shown in month order
 * (a stable sort, so milestones of the same month keep their order), the
 * month label of each, and the completion toggle that writes the new state
 * to the `milestones` table and, when the write succeeds, to the local list.
 */
module MilestoneList {
  import opened Wrappers
  import opened Types
  import Seqs

  // ---------------------------------------------------------------------------
  // Month labels
  // ---------------------------------------------------------------------------

  /** `MONTH_NAMES`. */
  const MonthNames: seq<string> := [
    "January", "February", "March", "April", "May", "June",
    "July", "August", "September", "October", "November", "December"
  ]

  /** `MONTH_NAMES[month - 1]`; `None` (nothing rendered) outside 1..12. */
  function MonthName(month: int): (name: Option<string>)
    ensures name.Some? <==> 1 <= month <= 12
    ensures 1 <= month <= 12 ==> name == Some(MonthNames[month - 1])
    ensures month == 1 ==> name == Some("January")
    ensures month == 12 ==> name == Some("December")
  {
    if 1 <= month <= |MonthNames| then Some(MonthNames[month - 1]) else None
  }

  /** Different months get different labels. */
  lemma MonthNamesDistinct(a: int, b: int)
    requires 1 <= a <= 12 && 1 <= b <= 12 && a != b
    ensures MonthName(a) != MonthName(b)
  {
    var x, y := MonthNames[a - 1], MonthNames[b - 1];
    // every label differs from every other one within its first three letters
    assert x[0] != y[0] || x[1] != y[1] || x[2] != y[2];
  }

  // ---------------------------------------------------------------------------
  // `[...milestones].sort((a, b) => a.month - b.month)`
  // ---------------------------------------------------------------------------

  predicate SortedByMonth(s: seq<Milestone>) {
    forall i, j :: 0 <= i < j < |s| ==> s[i].month <= s[j].month
  }

  /** Puts `x` after every element whose month is not later than its own. */
  function InsertByMonth(s: seq<Milestone>, x: Milestone): (r: seq<Milestone>)
    ensures |r| == |s| + 1
    ensures multiset(r) == multiset(s) + multiset{x}
  {
    if s == [] then [x]
    else if s[0].month > x.month then [x] + s
    else
      assert s == [s[0]] + s[1..];
      [s[0]] + InsertByMonth(s[1..], x)
  }

  /** A month that bounds the list and the new element from below still bounds the result. */
  lemma {:induction false} InsertLowerBound(s: seq<Milestone>, x: Milestone, month: int)
    requires forall k :: 0 <= k < |s| ==> month <= s[k].month
    requires month <= x.month
    ensures forall k :: 0 <= k < |InsertByMonth(s, x)| ==> month <= InsertByMonth(s, x)[k].month
  {
    if s != [] && s[0].month <= x.month {
      InsertLowerBound(s[1..], x, month);
      assert InsertByMonth(s, x) == [s[0]] + InsertByMonth(s[1..], x);
    }
  }

  /** Inserting into a month-sorted list keeps it sorted. */
  lemma {:induction false} InsertSorted(s: seq<Milestone>, x: Milestone)
    requires SortedByMonth(s)
    ensures SortedByMonth(InsertByMonth(s, x))
  {
    if s != [] && s[0].month <= x.month {
      var rest := InsertByMonth(s[1..], x);
      InsertSorted(s[1..], x);
      assert forall k :: 0 <= k < |s[1..]| ==> s[0].month <= s[1..][k].month by {
        forall k | 0 <= k < |s[1..]|
          ensures s[0].month <= s[1..][k].month
        {
          assert s[1..][k] == s[k + 1];
        }
      }
      InsertLowerBound(s[1..], x, s[0].month);
      assert InsertByMonth(s, x) == [s[0]] + rest;
    }
  }

  /** The list in month order: a sorted permutation of the input. */
  function SortByMonth(ms: seq<Milestone>): (r: seq<Milestone>)
    ensures |r| == |ms|
    ensures multiset(r) == multiset(ms)
    ensures SortedByMonth(r)
  {
    if ms == [] then []
    else
      var n := |ms| - 1;
      assert ms == ms[..n] + [ms[n]];
      InsertSorted(SortByMonth(ms[..n]), ms[n]);
      InsertByMonth(SortByMonth(ms[..n]), ms[n])
  }

  /** Selects the milestones of one month. */
  function MonthIs(month: int): Milestone -> bool {
    (m: Milestone) => m.month == month
  }

  lemma {:induction false} InsertKeepsMonthOrder(s: seq<Milestone>, x: Milestone, month: int)
    requires SortedByMonth(s)
    ensures Seqs.Filter(InsertByMonth(s, x), MonthIs(month))
         == Seqs.Filter(s, MonthIs(month)) + (if x.month == month then [x] else [])
  {
    var p := MonthIs(month);
    var tail: seq<Milestone> := if x.month == month then [x] else [];
    assert p(x) == (x.month == month);
    if s == [] {
      assert InsertByMonth(s, x) == [x] + [];
      Seqs.FilterCons(x, [], p);
    } else if s[0].month > x.month {
      assert InsertByMonth(s, x) == [x] + s;
      Seqs.FilterCons(x, s, p);
      if x.month == month {
        Seqs.FilterNone(s, p);
      }
    } else {
      var rest := InsertByMonth(s[1..], x);
      var head: seq<Milestone> := if p(s[0]) then [s[0]] else [];
      var f1 := Seqs.Filter(s[1..], p);
      assert Seqs.Filter(InsertByMonth(s, x), p) == head + (f1 + tail) by {
        assert InsertByMonth(s, x) == [s[0]] + rest;
        InsertKeepsMonthOrder(s[1..], x, month);
        Seqs.FilterCons(s[0], rest, p);
      }
      Seqs.FilterUncons(s, p);
      Seqs.ConcatAssoc(head, f1, tail);
    }
  }

  /** The sort is stable: milestones of any one month appear in their original order. */
  lemma {:induction false} SortByMonthStable(ms: seq<Milestone>, month: int)
    ensures Seqs.Filter(SortByMonth(ms), MonthIs(month)) == Seqs.Filter(ms, MonthIs(month))
  {
    if ms != [] {
      var n := |ms| - 1;
      var p := MonthIs(month);
      var init, last := ms[..n], ms[n];
      var tail: seq<Milestone> := if last.month == month then [last] else [];
      var sorted := SortByMonth(init);
      assert Seqs.Filter(SortByMonth(ms), p) == Seqs.Filter(init, p) + tail by {
        assert SortByMonth(ms) == InsertByMonth(sorted, last);
        SortByMonthStable(init, month);
        InsertKeepsMonthOrder(sorted, last, month);
      }
      assert Seqs.Filter(ms, p) == Seqs.Filter(init, p) + tail by {
        Seqs.FilterSnoc(ms, p);
        assert p(last) == (last.month == month);
      }
    }
  }

  // ---------------------------------------------------------------------------
  // Completion
  // ---------------------------------------------------------------------------

  /** `completed_at` is set exactly when `is_completed` is true. */
  predicate Consistent(m: Milestone) {
    m.completedAt.Some? <==> m.isCompleted
  }

  predicate AllConsistent(ms: seq<Milestone>) {
    forall i :: 0 <= i < |ms| ==> Consistent(ms[i])
  }

  /** `{ ...m, is_completed: completed, completed_at: completed ? now : null }`. */
  function WithCompletion(m: Milestone, completed: bool, now: string): (r: Milestone)
    ensures r.isCompleted == completed && Consistent(r)
    ensures completed ==> r.completedAt == Some(now)
    ensures r.id == m.id && r.goalId == m.goalId && r.title == m.title
            && r.month == m.month && r.createdAt == m.createdAt
  {
    m.(isCompleted := completed, completedAt := if completed then Some(now) else None)
  }

  /** `prev.map((m) => m.id === id ? WithCompletion(m, ...) : m)`. */
  function SetCompletion(ms: seq<Milestone>, id: Id, completed: bool, now: string): (r: seq<Milestone>)
    ensures |r| == |ms|
    ensures forall i :: 0 <= i < |ms| && ms[i].id != id ==> r[i] == ms[i]
    ensures forall i :: 0 <= i < |ms| && ms[i].id == id ==> r[i] == WithCompletion(ms[i], completed, now)
  {
    seq(|ms|, i requires 0 <= i < |ms| => if ms[i].id == id then WithCompletion(ms[i], completed, now) else ms[i])
  }

  /** A toggle keeps every milestone consistent. */
  lemma SetCompletionConsistent(ms: seq<Milestone>, id: Id, completed: bool, now: string)
    requires AllConsistent(ms)
    ensures AllConsistent(SetCompletion(ms, id, completed, now))
  {
    var r := SetCompletion(ms, id, completed, now);
    forall i | 0 <= i < |r|
      ensures Consistent(r[i])
    {
      if ms[i].id != id { assert r[i] == ms[i]; }
    }
  }

  /** Toggling the milestone at `i` twice gives back its completion and the presence of its timestamp. */
  lemma ToggleTwiceRestores(ms: seq<Milestone>, i: nat, now1: string, now2: string)
    requires i < |ms| && Consistent(ms[i])
    ensures var once := SetCompletion(ms, ms[i].id, !ms[i].isCompleted, now1);
            var twice := SetCompletion(once, once[i].id, !once[i].isCompleted, now2);
            twice[i].isCompleted == ms[i].isCompleted
            && twice[i].completedAt.Some? == ms[i].completedAt.Some?
            && (forall j :: 0 <= j < |ms| && ms[j].id != ms[i].id ==> twice[j] == ms[j])
  {
    var once := SetCompletion(ms, ms[i].id, !ms[i].isCompleted, now1);
    assert once[i].id == ms[i].id;
    var twice := SetCompletion(once, once[i].id, !once[i].isCompleted, now2);
    forall j | 0 <= j < |ms| && ms[j].id != ms[i].id
      ensures twice[j] == ms[j]
    {
      assert once[j] == ms[j];
    }
  }

  /** The `milestones` table, keyed by row id. */
  class MilestonesTable {
    var rows: map<Id, Milestone>

    constructor(rows: map<Id, Milestone>)
      ensures this.rows == rows
    {
      this.rows := rows;
    }

    /**
     * `update({ is_completed, completed_at }).eq('id', id)`; `fails` is the
     * database's answer, and a failed update changes nothing. The list
     * component `view` issues it, and only while it marks `id` as updating.
     */
    method UpdateCompletion(id: Id, completed: bool, now: string, fails: bool, ghost view: MilestoneListView)
      returns (error: bool)
      requires view.updating == Some(id)
      modifies this
      ensures error == fails
      ensures fails ==> rows == old(rows)
      ensures !fails ==> rows == CompletionWritten(old(rows), id, completed, now)
    {
      error := fails;
      if !fails {
        rows := CompletionWritten(rows, id, completed, now);
      }
    }
  }

  /** The table after the update: only the row with that id changes, and only its completion. */
  function CompletionWritten(rows: map<Id, Milestone>, id: Id, completed: bool, now: string): (r: map<Id, Milestone>)
    ensures r.Keys == rows.Keys
    ensures forall k :: k in rows && k != id ==> r[k] == rows[k]
    ensures id in rows ==> r[id] == WithCompletion(rows[id], completed, now)
  {
    if id in rows then rows[id := WithCompletion(rows[id], completed, now)] else rows
  }

  /** The component's state: its copy of the milestones and the id being written, if any. */
  class MilestoneListView {
    var milestones: seq<Milestone>
    var updating: Option<Id>

    constructor(initial: seq<Milestone>)
      ensures milestones == initial && updating.None?
    {
      milestones := initial;
      updating := None;
    }

    /** `sortedMilestones`: what is rendered, derived without touching the state. */
    function Shown(): (r: seq<Milestone>)
      reads this
      ensures |r| == |milestones| && multiset(r) == multiset(milestones) && SortedByMonth(r)
    {
      SortByMonth(milestones)
    }

    /** A milestone's button is disabled while its own write is in flight. */
    predicate Disabled(m: Milestone)
      reads this
      ensures updating.None? ==> !Disabled(m)
    {
      updating == Some(m.id)
    }

    /** At most one milestone is disabled at a time: the one being written. */
    lemma OneDisabled(a: Milestone, b: Milestone)
      requires Disabled(a) && Disabled(b)
      ensures a.id == b.id && updating == Some(a.id)
    {
    }

    /**
     * `handleToggle(target)`: marks `target` as updating, writes the negated
     * completion, applies it locally only when the write succeeded, and
     * clears `updating`. The write and the local copy each read the clock
     * (`writeNow`, `localNow`). The write requires `updating` to hold the
     * target's id, so the target stays disabled while it is in flight.
     */
    method HandleToggle(target: Milestone, table: MilestonesTable, writeFails: bool, writeNow: string, localNow: string)
      modifies this, table
      ensures updating.None? && forall m :: !Disabled(m)
      ensures writeFails ==> milestones == old(milestones) && table.rows == old(table.rows)
      ensures !writeFails ==>
                table.rows == CompletionWritten(old(table.rows), target.id, !target.isCompleted, writeNow)
                && milestones == SetCompletion(old(milestones), target.id, !target.isCompleted, localNow)
      ensures AllConsistent(old(milestones)) ==> AllConsistent(milestones)
    {
      updating := Some(target.id);
      var newCompleted := !target.isCompleted;
      var error := table.UpdateCompletion(target.id, newCompleted, writeNow, writeFails, this);
      if !error {
        if AllConsistent(milestones) {
          SetCompletionConsistent(milestones, target.id, newCompleted, localNow);
        }
        milestones := SetCompletion(milestones, target.id, newCompleted, localNow);
      }
      updating := None;
    }
  }
}
