/**
 * The goal status selector: a pill showing the current status that opens a
 * menu of the three statuses; picking one closes the menu and writes the new
 * status to the goal's row.
 */
module StatusSelector {
  import opened Types
  import Seqs

  /** The label `statusConfig` gives each status. */
  function StatusLabel(s: Status): (name: string)
    ensures name != ""
    ensures s == Active <==> name == "Active"
    ensures s == Completed <==> name == "Done"
    ensures s == Abandoned <==> name == "Dropped"
  {
    match s
    case Active => "Active"
    case Completed => "Done"
    case Abandoned => "Dropped"
  }

  /** `Object.entries(statusConfig)`: the menu, in declaration order. */
  function MenuEntries(): (r: seq<Status>)
    ensures |r| == 3
    ensures forall i, j :: 0 <= i < j < |r| ==> r[i] != r[j]
    ensures forall s: Status :: StatusIndex(s) < |r| && r[StatusIndex(s)] == s
  {
    [Active, Completed, Abandoned]
  }

  /** The position of a status in the menu. */
  function StatusIndex(s: Status): nat {
    match s
    case Active => 0
    case Completed => 1
    case Abandoned => 2
  }

  /** The menu entry styled as the current one. */
  function IsCurrent(current: Status): Status -> bool {
    (s: Status) => s == current
  }

  /** Exactly one menu entry is highlighted: the current status. */
  lemma OneHighlighted(current: Status)
    ensures Seqs.Filter(MenuEntries(), IsCurrent(current)) == [current]
  {
    var menu := MenuEntries();
    var p := IsCurrent(current);
    assert menu == [Active] + ([Completed] + ([Abandoned] + []));
    Seqs.FilterCons(Active, [Completed, Abandoned], p);
    assert [Completed, Abandoned] == [Completed] + [Abandoned];
    Seqs.FilterCons(Completed, [Abandoned], p);
    assert [Abandoned] == [Abandoned] + [];
    Seqs.FilterCons(Abandoned, [], p);
  }

  /** The `goals` table after `update({ status }).eq('id', goalId)`: only that row's status changes. */
  function StatusWritten(rows: map<Id, Goal>, goalId: Id, status: Status): (r: map<Id, Goal>)
    ensures r.Keys == rows.Keys
    ensures forall k :: k in rows && k != goalId ==> r[k] == rows[k]
    ensures goalId in rows ==> r[goalId] == rows[goalId].(status := status) && r[goalId].status == status
    ensures goalId in rows ==> r[goalId].updatedAt == rows[goalId].updatedAt
  {
    if goalId in rows then rows[goalId := rows[goalId].(status := status)] else rows
  }

  /** The `goals` table, keyed by row id. */
  class GoalsTable {
    var rows: map<Id, Goal>

    constructor(rows: map<Id, Goal>)
      ensures this.rows == rows
    {
      this.rows := rows;
    }

    /**
     * The status update; `fails` is the database's answer, and a failed update
     * changes nothing. The selector `sel` issues it, and only with its menu closed.
     */
    method UpdateStatus(goalId: Id, status: Status, fails: bool, ghost sel: Selector)
      requires !sel.open && sel.goalId == goalId
      modifies this
      ensures fails ==> rows == old(rows)
      ensures !fails ==> rows == StatusWritten(old(rows), goalId, status)
    {
      if !fails {
        rows := StatusWritten(rows, goalId, status);
      }
    }
  }

  /** The selector's state. */
  class Selector {
    const goalId: Id
    const currentStatus: Status
    var open: bool

    constructor(goalId: Id, currentStatus: Status)
      ensures this.goalId == goalId && this.currentStatus == currentStatus && !open
    {
      this.goalId := goalId;
      this.currentStatus := currentStatus;
      open := false;
    }

    /** The pill's label: it names the current status and no other. */
    function Label(): (l: string)
      reads this
      ensures l != ""
      ensures forall s: Status :: l == StatusLabel(s) <==> s == currentStatus
    {
      StatusLabel(currentStatus)
    }

    /** Clicking the pill: `setOpen(!open)`. */
    method Toggle()
      modifies this
      ensures open == !old(open)
    {
      open := !open;
    }

    /** Clicking the backdrop closes the menu. */
    method Dismiss()
      modifies this
      ensures !open
    {
      open := false;
    }

    /**
     * `handleChange(status)`: closes the menu, then updates the row (the
     * outcome is ignored). The update requires the menu to be closed already.
     */
    method HandleChange(status: Status, table: GoalsTable, fails: bool)
      modifies this, table
      ensures !open
      ensures fails ==> table.rows == old(table.rows)
      ensures !fails ==> table.rows == StatusWritten(old(table.rows), goalId, status)
    {
      open := false;
      table.UpdateStatus(goalId, status, fails, this);
    }
  }
}
